/** The write-ahead log (internal/storage/wal.go): appended records and their replay. A line
    of the file is a decoded record, a bare job of the legacy format, or unreadable. */
module WriteAheadLog {
  import opened Jobs
  import opened MemoryStores

  datatype Line =
    | Event(kind: string, job: Option<Job>, jobId: JobId)
    | Legacy(legacyJob: Job)
    | Garbage

  /** What a line does to the set of recovered jobs. */
  datatype Effect = Put(j: Job) | Drop(id: JobId) | Nothing

  function EffectOf(l: Line): Effect {
    match l
    case Event(kind, job, jobId) =>
      if kind == "submit" || kind == "retry" then
        (if job.Some? then Put(job.value) else Nothing)
      else if kind == "failed" then
        (if job.Some? then Drop(job.value.id) else Nothing)
      else if kind == "cancel" || kind == "complete" then Drop(jobId)
      else Nothing
    case Legacy(j) => Put(j)
    case Garbage => Nothing
  }

  function Step(pending: map<JobId, Job>, l: Line): map<JobId, Job> {
    match EffectOf(l)
    case Put(j) => pending[j.id := j]
    case Drop(id) => pending - {id}
    case Nothing => pending
  }

  function ReplayOnto(pending: map<JobId, Job>, ls: seq<Line>): map<JobId, Job>
    decreases |ls|
  {
    if ls == [] then pending else Step(ReplayOnto(pending, ls[..|ls| - 1]), ls[|ls| - 1])
  }

  /** The lines before the first unreadable one. */
  function Readable(ls: seq<Line>): seq<Line> {
    if ls == [] || ls[0].Garbage? then [] else [ls[0]] + Readable(ls[1..])
  }

  function Replay(ls: seq<Line>): map<JobId, Job> {
    ReplayOnto(map[], Readable(ls))
  }

  predicate Clean(ls: seq<Line>) { Garbage !in ls }

  // ---------- last record wins ----------

  /** The line is a record of j that keeps it: a submission, a retry or a bare job. */
  predicate Saves(l: Line, j: Job) {
    || (l.Event? && (l.kind == "submit" || l.kind == "retry") && l.job == Some(j))
    || l == Legacy(j)
  }

  /** The line is a record that ends the job: a failure, a completion or a cancellation. */
  predicate Ends(l: Line, id: JobId) {
    && l.Event?
    && ((l.kind == "failed" && l.job.Some? && l.job.value.id == id) ||
        ((l.kind == "complete" || l.kind == "cancel") && l.jobId == id))
  }

  /** The line is a record of the job; every other line is none of its business. */
  predicate Touches(l: Line, id: JobId) {
    || (l.Event? && (l.kind == "submit" || l.kind == "retry") && l.job.Some? && l.job.value.id == id)
    || (l.Legacy? && l.legacyJob.id == id)
    || Ends(l, id)
  }

  function Recovered(m: map<JobId, Job>, id: JobId): Option<Job> {
    if id in m then Some(m[id]) else None
  }

  /** What one line does to one job. */
  lemma LineOutcome(m: map<JobId, Job>, l: Line, id: JobId)
    ensures !Touches(l, id) ==> Recovered(Step(m, l), id) == Recovered(m, id)
    ensures forall j: Job :: j.id == id && Saves(l, j) ==> Recovered(Step(m, l), id) == Some(j)
    ensures Ends(l, id) ==> Recovered(Step(m, l), id) == None
    ensures Touches(l, id) ==> Ends(l, id) || exists j: Job :: j.id == id && Saves(l, j)
  {
    if Touches(l, id) && !Ends(l, id) {
      assert Saves(l, if l.Event? then l.job.value else l.legacyJob);
    }
  }

  /** The last of the lines that is a record of the job keeps it, as j. */
  ghost predicate LastSaves(ls: seq<Line>, id: JobId, j: Job) {
    exists i :: 0 <= i < |ls| && j.id == id && Saves(ls[i], j) && forall k :: i < k < |ls| ==> !Touches(ls[k], id)
  }

  lemma LastSavesSnoc(ls: seq<Line>, l: Line, id: JobId, j: Job)
    ensures LastSaves(ls + [l], id, j) <==> (j.id == id && Saves(l, j)) || (!Touches(l, id) && LastSaves(ls, id, j))
  {
    var more := ls + [l];
    if j.id == id && Saves(l, j) {
      assert more[|ls|] == l;
    }
    if !Touches(l, id) && LastSaves(ls, id, j) {
      var i :| 0 <= i < |ls| && Saves(ls[i], j) && forall k :: i < k < |ls| ==> !Touches(ls[k], id);
      assert more[i] == ls[i];
    }
    if LastSaves(more, id, j) {
      var i :| 0 <= i < |more| && Saves(more[i], j) && forall k :: i < k < |more| ==> !Touches(more[k], id);
      if i < |ls| {
        assert more[|ls|] == l && ls[i] == more[i];
        assert forall k :: i < k < |ls| ==> ls[k] == more[k];
      }
    }
  }

  lemma {:induction false} ReplayTellsLast(ls: seq<Line>, id: JobId, j: Job)
    ensures Recovered(ReplayOnto(map[], ls), id) == Some(j) <==> LastSaves(ls, id, j)
    decreases |ls|
  {
    if ls != [] {
      var front, last := ls[..|ls| - 1], ls[|ls| - 1];
      assert ls == front + [last];
      ReplayTellsLast(front, id, j);
      LastSavesSnoc(front, last, id, j);
      LineOutcome(ReplayOnto(map[], front), last, id);
    }
  }

  /** A job is recovered, with value j, exactly when its last record among the lines before
      the first unreadable one is a submit or retry record of j or the bare job j. */
  lemma LastRecordWins(ls: seq<Line>, id: JobId, j: Job, n: nat)
    requires n <= |ls| && Clean(ls[..n]) && (n < |ls| ==> ls[n].Garbage?)
    ensures Recovered(Replay(ls), id) == Some(j) <==> LastSaves(ls[..n], id, j)
  {
    ReadableSplits(ls[..n], ls[n..]);
    assert ls[..n] + ls[n..] == ls && ls[..n] + [] == ls[..n];
    assert Readable(ls[n..]) == [];
    ReplayTellsLast(Readable(ls), id, j);
  }

  /** The records of one job, in order. */
  function Story(ls: seq<Line>, id: JobId): seq<Line>
    decreases |ls|
  {
    if ls == [] then []
    else
      var front := Story(ls[..|ls| - 1], id);
      if Touches(ls[|ls| - 1], id) then front + [ls[|ls| - 1]] else front
  }

  /** The last record of the job, if any, keeps it as j. */
  predicate StoryEndsWith(story: seq<Line>, j: Job) {
    story != [] && Saves(story[|story| - 1], j)
  }

  lemma {:induction false} ReplayTellsStory(ls: seq<Line>, id: JobId, j: Job)
    requires j.id == id
    ensures Recovered(ReplayOnto(map[], ls), id) == Some(j) <==> StoryEndsWith(Story(ls, id), j)
    decreases |ls|
  {
    if ls != [] {
      ReplayTellsStory(ls[..|ls| - 1], id, j);
      LineOutcome(ReplayOnto(map[], ls[..|ls| - 1]), ls[|ls| - 1], id);
    }
  }

  lemma {:induction false} RecoveredUnderOwnId(ls: seq<Line>)
    ensures forall id :: id in ReplayOnto(map[], ls) ==> ReplayOnto(map[], ls)[id].id == id
    decreases |ls|
  {
    if ls != [] {
      RecoveredUnderOwnId(ls[..|ls| - 1]);
    }
  }

  lemma SameStorySameJob(a: seq<Line>, b: seq<Line>, id: JobId)
    requires Story(a, id) == Story(b, id)
    ensures Recovered(ReplayOnto(map[], a), id) == Recovered(ReplayOnto(map[], b), id)
  {
    RecoveredUnderOwnId(a);
    RecoveredUnderOwnId(b);
    var x, y := Recovered(ReplayOnto(map[], a), id), Recovered(ReplayOnto(map[], b), id);
    if x.Some? {
      ReplayTellsStory(a, id, x.value);
      ReplayTellsStory(b, id, x.value);
    }
    if y.Some? {
      ReplayTellsStory(a, id, y.value);
      ReplayTellsStory(b, id, y.value);
    }
  }

  /** Only the order of records of the same job matters. */
  lemma ReorderingAcrossJobs(a: seq<Line>, b: seq<Line>)
    requires forall id :: Story(Readable(a), id) == Story(Readable(b), id)
    ensures Replay(a) == Replay(b)
  {
    forall id
      ensures Recovered(Replay(a), id) == Recovered(Replay(b), id)
    {
      SameStorySameJob(Readable(a), Readable(b), id);
    }
    forall id
      ensures id in Replay(a) <==> id in Replay(b)
      ensures id in Replay(a) ==> Replay(a)[id] == Replay(b)[id]
    {
      assert Recovered(Replay(a), id) == Recovered(Replay(b), id);
    }
  }

  // ---------- concatenation, torn tails, compaction ----------

  lemma {:induction false} ReplaySplits(m: map<JobId, Job>, a: seq<Line>, b: seq<Line>)
    ensures ReplayOnto(m, a + b) == ReplayOnto(ReplayOnto(m, a), b)
    decreases |b|
  {
    if b == [] {
      assert a + b == a;
    } else {
      assert (a + b)[..|a + b| - 1] == a + b[..|b| - 1];
      ReplaySplits(m, a, b[..|b| - 1]);
    }
  }

  lemma {:induction false} ReadableSplits(a: seq<Line>, b: seq<Line>)
    requires Clean(a)
    ensures Readable(a + b) == a + Readable(b)
  {
    if a == [] {
      assert a + b == b;
    } else {
      assert (a + b)[1..] == a[1..] + b;
      ReadableSplits(a[1..], b);
    }
  }

  /** Nothing at or after an unreadable line counts, records appended later included. */
  lemma TornTailIsIgnored(a: seq<Line>, rest: seq<Line>)
    requires Clean(a)
    ensures Replay(a + [Garbage] + rest) == Replay(a)
  {
    assert a + [Garbage] + rest == a + ([Garbage] + rest);
    ReadableSplits(a, [Garbage] + rest);
    ReadableSplits(a, []);
    assert a + [] == a;
  }

  function Submits(js: seq<Job>): seq<Line>
    decreases |js|
  {
    if js == [] then [] else Submits(js[..|js| - 1]) + [Event("submit", Some(js[|js| - 1]), 0)]
  }

  lemma {:induction false} SubmitsReplay(m: map<JobId, Job>, js: seq<Job>)
    requires forall j :: j in js ==> j.id in m && m[j.id] == j
    ensures Clean(Submits(js))
    ensures forall id :: id in ReplayOnto(map[], Submits(js)) <==> exists j :: j in js && j.id == id
    ensures forall id :: id in ReplayOnto(map[], Submits(js)) ==> id in m && ReplayOnto(map[], Submits(js))[id] == m[id]
    decreases |js|
  {
    if js != [] {
      var front, last := js[..|js| - 1], js[|js| - 1];
      assert js == front + [last];
      SubmitsReplay(m, front);
      assert Submits(js)[..|Submits(js)| - 1] == Submits(front);
      var before, after := ReplayOnto(map[], Submits(front)), ReplayOnto(map[], Submits(js));
      assert after == before[last.id := last];
      forall id
        ensures id in after <==> exists j :: j in js && j.id == id
      {
        if id == last.id {
          assert last in js;
        } else if id in before {
          var j :| j in front && j.id == id;
          assert j in js;
        }
      }
    }
  }

  /** Compaction: a clean prefix may be replaced by submit records of what it recovers, in
      any order, without changing the replay of the whole log, whatever follows. */
  lemma CompactionIsInvisible(prefix: seq<Line>, js: seq<Job>, rest: seq<Line>)
    requires Clean(prefix) && ListingOf(js, Replay(prefix), Replay(prefix).Keys)
    ensures Replay(Submits(js) + rest) == Replay(prefix + rest)
  {
    var m := Replay(prefix);
    ListingMembers(js, m, m.Keys);
    SubmitsReplay(m, js);
    var c := ReplayOnto(map[], Submits(js));
    forall id | id in m
      ensures id in c
    {
      assert id in m.Keys && m[id] in js && m[id].id == id;
    }
    assert c == m;
    ReadableSplits(prefix, []);
    assert prefix + [] == prefix;
    ReadableSplits(prefix, rest);
    ReadableSplits(Submits(js), rest);
    ReplaySplits(map[], prefix, Readable(rest));
    ReplaySplits(map[], Submits(js), Readable(rest));
  }

  // ---------- the object ----------

  class Wal {
    var lines: seq<Line>

    constructor ()
      ensures lines == []
    {
      lines := [];
    }

    method Append(j: Job)
      modifies this
      ensures lines == old(lines) + [Event("submit", Some(j), 0)]
      ensures Clean(old(lines)) ==> Replay(lines) == Replay(old(lines))[j.id := j]
    {
      AppendedRecord(lines, Event("submit", Some(j), 0));
      lines := lines + [Event("submit", Some(j), 0)];
    }

    method AppendRetry(j: Job)
      modifies this
      ensures lines == old(lines) + [Event("retry", Some(j), 0)]
      ensures Clean(old(lines)) ==> Replay(lines) == Replay(old(lines))[j.id := j]
    {
      AppendedRecord(lines, Event("retry", Some(j), 0));
      lines := lines + [Event("retry", Some(j), 0)];
    }

    method AppendFailure(j: Job)
      modifies this
      ensures lines == old(lines) + [Event("failed", Some(j), 0)]
      ensures Clean(old(lines)) ==> Replay(lines) == Replay(old(lines)) - {j.id}
    {
      AppendedRecord(lines, Event("failed", Some(j), 0));
      lines := lines + [Event("failed", Some(j), 0)];
    }

    method AppendCompletion(jobId: JobId)
      modifies this
      ensures lines == old(lines) + [Event("complete", None, jobId)]
      ensures Clean(old(lines)) ==> Replay(lines) == Replay(old(lines)) - {jobId}
    {
      AppendedRecord(lines, Event("complete", None, jobId));
      lines := lines + [Event("complete", None, jobId)];
    }

    method AppendCancel(jobId: JobId)
      modifies this
      ensures lines == old(lines) + [Event("cancel", None, jobId)]
      ensures Clean(old(lines)) ==> Replay(lines) == Replay(old(lines)) - {jobId}
    {
      AppendedRecord(lines, Event("cancel", None, jobId));
      lines := lines + [Event("cancel", None, jobId)];
    }

    /** Scans the file up to the first unreadable line and returns the surviving jobs. */
    method ReplayJobs() returns (js: seq<Job>)
      ensures ListingOf(js, Replay(lines), Replay(lines).Keys)
    {
      var pending: map<JobId, Job> := map[];
      var i := 0;
      assert lines[..0] == [];
      while i < |lines| && !lines[i].Garbage?
        invariant 0 <= i <= |lines| && Clean(lines[..i])
        invariant pending == ReplayOnto(map[], lines[..i])
        invariant forall id :: id in pending ==> pending[id].id == id
      {
        assert lines[..i + 1][..i] == lines[..i];
        match lines[i] {
          case Event(kind, job, jobId) =>
            if kind == "submit" || kind == "retry" {
              if job.Some? {
                pending := pending[job.value.id := job.value];
              }
            } else if kind == "failed" {
              if job.Some? {
                pending := pending - {job.value.id};
              }
            } else if kind == "cancel" || kind == "complete" {
              pending := pending - {jobId};
            }
          case Legacy(j) => pending := pending[j.id := j];
        }
        i := i + 1;
      }
      ReadableSplits(lines[..i], lines[i..]);
      assert lines[..i] + lines[i..] == lines;
      assert Readable(lines[i..]) == [];
      assert lines[..i] + [] == lines[..i];
      js := Collect(pending, pending.Keys);
      assert pending.Keys * pending.Keys == pending.Keys;
    }
  }

  lemma AppendedRecord(ls: seq<Line>, l: Line)
    requires !l.Garbage?
    ensures Clean(ls) ==> Replay(ls + [l]) == Step(Replay(ls), l)
  {
    if Clean(ls) {
      ReadableSplits(ls, [l]);
      ReadableSplits(ls, []);
      assert ls + [] == ls;
      assert Readable([l]) == [l];
      ReplaySplits(map[], ls, [l]);
    }
  }
}
