// The durable record of proposals: a map in memory, rewritten whole to one file.
module Store {
  import opened Outcomes
  import opened Utf16
  import opened Transactions

  datatype ActionKind =
    | WaiverCreate | WaiverRevoke
    | FacilityCreate | SetExposureIssuer | SetHedgeIssuer | FacilityFreeze

  /** The WaiverCreated a receipt carried, and whether it records what was approved. */
  datatype WaiverRecord = WaiverRecord(facilityMatches: bool, reasonCommitmentMatches: bool)

  datatype BroadcastRecord = BroadcastRecord(
    hash: Hash, signer: Address, blockNumber: nat, success: bool, waiverCreated: Option<WaiverRecord>)

  datatype StoredAction = StoredAction(
    intentId: Text, kind: ActionKind, description: Text, reason: Option<Text>,
    pinned: SerializedPinned, proposedAt: int, broadcast: Option<BroadcastRecord>)

  type Entries = seq<StoredAction>

  /** A Map holds each key once. */
  ghost predicate Unique(es: Entries) {
    forall i, j :: 0 <= i < j < |es| ==> es[i].intentId != es[j].intentId
  }

  /** `Map.get`. */
  function Find(es: Entries, id: Text): (a: Option<StoredAction>)
    ensures a.Some? ==> a.value in es && a.value.intentId == id
    ensures a.None? ==> forall e | e in es :: e.intentId != id
  {
    if es == [] then None
    else if es[0].intentId == id then Some(es[0])
    else Find(es[1..], id)
  }

  /** `Map.set`: a known key keeps its place. */
  function Put(es: Entries, a: StoredAction): (r: Entries)
    ensures forall e :: e in r ==> e == a || e in es
  {
    if es == [] then [a]
    else if es[0].intentId == a.intentId then [a] + es[1..]
    else [es[0]] + Put(es[1..], a)
  }

  function InsertByTime(a: StoredAction, es: Entries): (r: Entries) {
    if es == [] || es[0].proposedAt <= a.proposedAt then [a] + es
    else [es[0]] + InsertByTime(a, es[1..])
  }

  /** `all()`: latest proposal first, and insertion order between equals, as the stable sort leaves it. */
  function All(es: Entries): (r: Entries) {
    if es == [] then [] else InsertByTime(es[0], All(es[1..]))
  }

  /** The constructor's loop over the file. */
  function Load(file: Entries): (es: Entries) {
    if file == [] then [] else Put(Load(file[..|file| - 1]), file[|file| - 1])
  }

  /** The map as a value. */
  ghost function Contents(es: Entries): (m: map<Text, StoredAction>) {
    map id | id in (set e | e in es :: e.intentId) :: Find(es, id).value
  }

  // ---- The sort --------------------------------------------------------------------------------

  ghost predicate LatestFirst(es: Entries) {
    forall i, j :: 0 <= i < j < |es| ==> es[i].proposedAt >= es[j].proposedAt
  }

  /** The actions proposed at one instant, in order. */
  function At(es: Entries, time: int): (r: Entries) {
    if es == [] then []
    else (if es[0].proposedAt == time then [es[0]] else []) + At(es[1..], time)
  }

  lemma {:induction false} InsertSorted(a: StoredAction, es: Entries)
    requires LatestFirst(es)
    ensures LatestFirst(InsertByTime(a, es))
    ensures forall e :: e in InsertByTime(a, es) <==> e == a || e in es
  {
    if es != [] && es[0].proposedAt > a.proposedAt {
      InsertSorted(a, es[1..]);
      forall e | e in InsertByTime(a, es[1..])
        ensures es[0].proposedAt >= e.proposedAt
      {
        if e != a {
          var j :| 0 <= j < |es[1..]| && es[1..][j] == e;
          assert es[j + 1] == e;
        }
      }
    }
  }

  lemma AtFirst(a: StoredAction, es: Entries, time: int)
    ensures At([a] + es, time) == (if a.proposedAt == time then [a] else []) + At(es, time)
  {
    assert ([a] + es)[1..] == es;
  }

  lemma {:induction false} InsertAt(a: StoredAction, es: Entries, time: int)
    requires LatestFirst(es)
    ensures At(InsertByTime(a, es), time) == (if a.proposedAt == time then [a] else []) + At(es, time)
  {
    if es == [] || es[0].proposedAt <= a.proposedAt {
      assert ([a] + es)[1..] == es;
    } else {
      InsertAt(a, es[1..], time);
      AtFirst(es[0], InsertByTime(a, es[1..]), time);
      AtFirst(es[0], es[1..], time);
      assert es == [es[0]] + es[1..];
    }
  }

  /** `all()` is the stable sort: latest first, and at each instant the order of insertion. */
  lemma {:induction false} AllIsStableSort(es: Entries, time: int)
    ensures LatestFirst(All(es))
    ensures At(All(es), time) == At(es, time)
    ensures forall e :: e in All(es) <==> e in es
  {
    if es != [] {
      AllIsStableSort(es[1..], time);
      InsertSorted(es[0], All(es[1..]));
      InsertAt(es[0], All(es[1..]), time);
      assert forall e :: e in es <==> e == es[0] || e in es[1..];
    }
  }

  lemma {:induction false} SortedFixed(es: Entries)
    requires LatestFirst(es)
    ensures All(es) == es
  {
    if es != [] {
      SortedFixed(es[1..]);
      assert es == [es[0]] + es[1..];
      assert es[1..] != [] ==> es[0].proposedAt >= es[1].proposedAt;
    }
  }

  lemma {:induction false} InsertUnique(a: StoredAction, es: Entries)
    requires LatestFirst(es) && Unique(es) && forall e | e in es :: e.intentId != a.intentId
    ensures Unique(InsertByTime(a, es))
  {
    if es != [] && es[0].proposedAt > a.proposedAt {
      InsertUnique(a, es[1..]);
      InsertSorted(a, es[1..]);
      forall e | e in InsertByTime(a, es[1..])
        ensures e.intentId != es[0].intentId
      {
        assert es[0] in es;
        if e != a {
          var j :| 0 <= j < |es[1..]| && es[1..][j] == e;
          assert es[j + 1] == e;
        }
      }
    }
  }

  lemma {:induction false} AllUnique(es: Entries)
    requires Unique(es)
    ensures Unique(All(es))
  {
    if es != [] {
      AllUnique(es[1..]);
      AllIsStableSort(es[1..], 0);
      forall e | e in es[1..]
        ensures e.intentId != es[0].intentId
      {
        var j :| 0 <= j < |es[1..]| && es[1..][j] == e;
        assert es[j + 1] == e;
      }
      InsertUnique(es[0], All(es[1..]));
    }
  }

  // ---- Map operations --------------------------------------------------------------------------

  lemma FindMember(es: Entries, e: StoredAction)
    requires Unique(es) && e in es
    ensures Find(es, e.intentId) == Some(e)
  {
    var found := Find(es, e.intentId).value;
    var i :| 0 <= i < |es| && es[i] == e;
    var j :| 0 <= j < |es| && es[j] == found;
    assert i == j;
  }

  /** Lookups depend on which actions are held, not on their order. */
  lemma SameFind(es: Entries, fs: Entries, id: Text)
    requires Unique(es) && Unique(fs) && forall e :: e in es <==> e in fs
    ensures Find(es, id) == Find(fs, id)
  {
    if Find(es, id).Some? {
      FindMember(fs, Find(es, id).value);
    }
  }

  lemma {:induction false} PutUnique(es: Entries, a: StoredAction)
    requires Unique(es)
    ensures Unique(Put(es, a))
    ensures forall e :: e in Put(es, a) <==> e == a || (e in es && e.intentId != a.intentId)
    ensures forall id :: Find(Put(es, a), id) == if id == a.intentId then Some(a) else Find(es, id)
  {
    if es != [] {
      assert es == [es[0]] + es[1..];
      PutUnique(es[1..], a);
      forall e | e in es[1..]
        ensures e.intentId != es[0].intentId
      {
        var j :| 0 <= j < |es[1..]| && es[1..][j] == e;
        assert es[j + 1] == e;
      }
    }
  }

  lemma PutContents(es: Entries, a: StoredAction)
    requires Unique(es)
    ensures Contents(Put(es, a)) == Contents(es)[a.intentId := a]
  {
    PutUnique(es, a);
    assert a in Put(es, a);
    assert forall id :: id in Contents(Put(es, a)) <==> id == a.intentId || id in Contents(es) by {
      forall id | id in Contents(es) && id != a.intentId
        ensures id in Contents(Put(es, a))
      {
        assert Find(es, id).value in Put(es, a);
      }
    }
  }

  lemma {:induction false} PutNewAppends(es: Entries, a: StoredAction)
    requires forall e | e in es :: e.intentId != a.intentId
    ensures Put(es, a) == es + [a]
  {
    if es != [] {
      assert es[0] in es;
      PutNewAppends(es[1..], a);
      assert es + [a] == [es[0]] + (es[1..] + [a]);
    }
  }

  lemma {:induction false} LoadFixed(file: Entries)
    requires Unique(file)
    ensures Load(file) == file
  {
    if file != [] {
      var front, last := file[..|file| - 1], file[|file| - 1];
      LoadFixed(front);
      forall e | e in front
        ensures e.intentId != last.intentId
      {
        var i :| 0 <= i < |front| && front[i] == e;
        assert file[i].intentId != file[|file| - 1].intentId;
      }
      PutNewAppends(front, last);
    }
  }

  /**
   * Restarting from the file the last flush wrote: the same `all()`, ties included, and the same
   * `get` for every id.
   */
  lemma ReloadSame(es: Entries, id: Text)
    requires Unique(es)
    ensures Unique(Load(All(es)))
    ensures All(Load(All(es))) == All(es)
    ensures Find(Load(All(es)), id) == Find(es, id)
    ensures Contents(Load(All(es))) == Contents(es)
  {
    AllUnique(es);
    LoadFixed(All(es));
    AllIsStableSort(es, 0);
    SortedFixed(All(es));
    forall k: Text
      ensures Find(All(es), k) == Find(es, k)
    {
      SameFind(es, All(es), k);
    }
  }

  // ---- Runs with restarts ----------------------------------------------------------------------

  /** A store operation, or a restart, which reloads the file the last flush wrote. */
  datatype Operation = Save(action: StoredAction) | Record(id: Text, broadcast: BroadcastRecord) | Restart

  /** `recordBroadcast` leaves everything but the record as it was; an unknown id is refused. */
  function Recorded(es: Entries, id: Text, broadcast: BroadcastRecord): (r: Entries) {
    match Find(es, id)
    case Some(a) => Put(es, a.(broadcast := Some(broadcast)))
    case None => es
  }

  function Apply(es: Entries, op: Operation): (r: Entries) {
    match op
    case Save(a) => Put(es, a)
    case Record(id, broadcast) => Recorded(es, id, broadcast)
    case Restart => Load(All(es))
  }

  function Run(es: Entries, ops: seq<Operation>): (r: Entries)
    decreases |ops|
  {
    if ops == [] then es else Run(Apply(es, ops[0]), ops[1..])
  }

  /** The same run in a process that never restarts. */
  function Uninterrupted(ops: seq<Operation>): (r: seq<Operation>) {
    if ops == [] then []
    else (if ops[0].Restart? then [] else [ops[0]]) + Uninterrupted(ops[1..])
  }

  /** No save moves an action already held to another instant. The service saves each action once. */
  ghost predicate Steady(es: Entries, ops: seq<Operation>)
    decreases |ops|
  {
    ops != [] ==>
      && (ops[0].Save? ==>
        forall e | e in es && e.intentId == ops[0].action.intentId :: e.proposedAt == ops[0].action.proposedAt)
      && Steady(Apply(es, ops[0]), ops[1..])
  }

  lemma {:induction false} AppendSorted(es: Entries, a: StoredAction)
    ensures All(es + [a]) == InsertLast(a, All(es))
  {
    if es == [] {
      assert es + [a] == [a];
      assert All([]) == [] && All([a]) == InsertByTime(a, All([a][1..]));
    } else {
      assert (es + [a])[1..] == es[1..] + [a];
      AppendSorted(es[1..], a);
      InsertionsCommute(es[0], a, All(es[1..]));
    }
  }

  /** Insertion after everything at least as late: what the sort does with the newest entry. */
  function InsertLast(a: StoredAction, es: Entries): (r: Entries) {
    if es == [] || es[0].proposedAt < a.proposedAt then [a] + es
    else [es[0]] + InsertLast(a, es[1..])
  }

  lemma {:induction false} InsertionsCommute(first: StoredAction, last: StoredAction, es: Entries)
    ensures InsertByTime(first, InsertLast(last, es)) == InsertLast(last, InsertByTime(first, es))
  {
    if es != [] {
      InsertionsCommute(first, last, es[1..]);
    }
  }

  function Replace(es: Entries, a: StoredAction): (r: Entries) {
    if es == [] then []
    else [if es[0].intentId == a.intentId then a else es[0]] + Replace(es[1..], a)
  }

  lemma {:induction false} ReplaceAbsent(es: Entries, a: StoredAction)
    requires forall e | e in es :: e.intentId != a.intentId
    ensures Replace(es, a) == es
  {
    if es != [] {
      assert es[0] in es;
      ReplaceAbsent(es[1..], a);
      assert es == [es[0]] + es[1..];
    }
  }

  lemma {:induction false} PutReplaces(es: Entries, a: StoredAction)
    requires Unique(es) && exists e :: e in es && e.intentId == a.intentId
    ensures Put(es, a) == Replace(es, a)
  {
    if es[0].intentId == a.intentId {
      forall e | e in es[1..]
        ensures e.intentId != a.intentId
      {
        var j :| 0 <= j < |es[1..]| && es[1..][j] == e;
        assert es[j + 1] == e;
      }
      ReplaceAbsent(es[1..], a);
    } else {
      var e :| e in es && e.intentId == a.intentId;
      assert e in es[1..];
      PutReplaces(es[1..], a);
    }
  }

  lemma {:induction false} InsertReplaced(x: StoredAction, es: Entries, a: StoredAction)
    requires x.intentId == a.intentId ==> x.proposedAt == a.proposedAt
    requires forall e | e in es && e.intentId == a.intentId :: e.proposedAt == a.proposedAt
    ensures InsertByTime(if x.intentId == a.intentId then a else x, Replace(es, a))
         == Replace(InsertByTime(x, es), a)
  {
    if es != [] {
      assert es[0] in es;
      if es[0].proposedAt <= x.proposedAt {
        assert ([x] + es)[1..] == es;
      } else {
        InsertReplaced(x, es[1..], a);
        assert InsertByTime(x, es)[1..] == InsertByTime(x, es[1..]);
      }
    }
  }

  lemma {:induction false} ReplaceSorted(es: Entries, a: StoredAction)
    requires forall e | e in es && e.intentId == a.intentId :: e.proposedAt == a.proposedAt
    ensures All(Replace(es, a)) == Replace(All(es), a)
  {
    if es != [] {
      assert es[0] in es;
      ReplaceSorted(es[1..], a);
      AllIsStableSort(es[1..], 0);
      InsertReplaced(es[0], All(es[1..]), a);
    }
  }

  /** Stores a caller cannot tell apart: the same `all()`, hence the same actions. */
  ghost predicate Alike(es: Entries, fs: Entries) {
    Unique(es) && Unique(fs) && All(es) == All(fs)
  }

  lemma AlikeMembers(es: Entries, fs: Entries)
    requires Alike(es, fs)
    ensures forall e :: e in es <==> e in fs
    ensures forall id :: Find(es, id) == Find(fs, id)
  {
    AllIsStableSort(es, 0);
    AllIsStableSort(fs, 0);
    forall id: Text
      ensures Find(es, id) == Find(fs, id)
    {
      SameFind(es, fs, id);
    }
  }

  lemma PutAlike(es: Entries, fs: Entries, a: StoredAction)
    requires Alike(es, fs)
    requires forall e | e in es && e.intentId == a.intentId :: e.proposedAt == a.proposedAt
    ensures Alike(Put(es, a), Put(fs, a))
  {
    AlikeMembers(es, fs);
    PutUnique(es, a);
    PutUnique(fs, a);
    if exists e :: e in es && e.intentId == a.intentId {
      PutReplaces(es, a);
      PutReplaces(fs, a);
      ReplaceSorted(es, a);
      ReplaceSorted(fs, a);
    } else {
      PutNewAppends(es, a);
      PutNewAppends(fs, a);
      AppendSorted(es, a);
      AppendSorted(fs, a);
    }
  }

  lemma ApplyAlike(es: Entries, fs: Entries, op: Operation)
    requires Alike(es, fs) && Steady(es, [op])
    ensures if op.Restart? then Alike(Apply(es, op), fs) else Alike(Apply(es, op), Apply(fs, op))
  {
    match op
    case Save(a) => PutAlike(es, fs, a);
    case Record(id, broadcast) =>
      AlikeMembers(es, fs);
      match Find(es, id) {
        case Some(a) =>
          forall e | e in es && e.intentId == id
            ensures e == a
          {
            FindMember(es, e);
          }
          PutAlike(es, fs, a.(broadcast := Some(broadcast)));
        case None =>
      }
    case Restart => ReloadSame(es, []);
  }

  /**
   * Restarts are invisible: a run interrupted any number of times, at any operation boundary, ends
   * with the same `all()` and the same `get` as the run that was never interrupted.
   */
  lemma {:induction false} RestartsInvisible(es: Entries, fs: Entries, ops: seq<Operation>)
    requires Alike(es, fs) && Steady(es, ops)
    ensures Alike(Run(es, ops), Run(fs, Uninterrupted(ops)))
    ensures forall id :: Find(Run(es, ops), id) == Find(Run(fs, Uninterrupted(ops)), id)
    decreases |ops|
  {
    if ops == [] {
      AlikeMembers(es, fs);
    } else {
      assert Steady(es, [ops[0]]);
      ApplyAlike(es, fs, ops[0]);
      var fs' := if ops[0].Restart? then fs else Apply(fs, ops[0]);
      RestartsInvisible(Apply(es, ops[0]), fs', ops[1..]);
      if !ops[0].Restart? {
        assert ([ops[0]] + Uninterrupted(ops[1..]))[1..] == Uninterrupted(ops[1..]);
      } else {
        assert [] + Uninterrupted(ops[1..]) == Uninterrupted(ops[1..]);
      }
    }
  }

  /** Moving a held action to the instant of another shows the restart: the tie breaks the other way. */
  lemma ResaveAtAnotherTimeShows(a: StoredAction, b: StoredAction)
    requires a.intentId != b.intentId && a.proposedAt < b.proposedAt
    ensures var ops := [Save(a), Save(b), Restart, Save(a.(proposedAt := b.proposedAt))];
            All(Run([], ops)) != All(Run([], Uninterrupted(ops)))
  {
    var c := a.(proposedAt := b.proposedAt);
    assert Put([a, b], c) == [c, b] && Put([b, a], c) == [b, c];
    SortedPair(b, a);
    SortedPair(c, b);
    SortedPair(b, c);
    assert All([a, b]) == InsertByTime(a, All([b])) && [a, b][1..] == [b];
    assert All([b]) == InsertByTime(b, All([])) == [b];
    assert All([a, b]) == [b, a];
    LoadFixed([b, a]);
    var ops := [Save(a), Save(b), Restart, Save(c)];
    assert Put([], a) == [a] && Put([a], b) == [a, b];
    RunFour([], ops);
    assert ops[1..] == [Save(b), Restart, Save(c)] && ops[1..][1..] == [Restart, Save(c)];
    assert ops[1..][1..][1..] == [Save(c)];
    assert Uninterrupted([Save(c)]) == [Save(c)] + Uninterrupted([Save(c)][1..]);
    assert Uninterrupted([Save(c)]) == [Save(c)];
    assert Uninterrupted([Restart, Save(c)]) == [] + [Save(c)];
    assert Uninterrupted(ops) == [Save(a)] + ([Save(b)] + [Save(c)]);
    assert Uninterrupted(ops) == [Save(a), Save(b), Save(c)];
    RunThree([], [Save(a), Save(b), Save(c)]);
  }

  lemma SortedPair(a: StoredAction, b: StoredAction)
    requires a.proposedAt >= b.proposedAt
    ensures All([a, b]) == [a, b]
  {
    SortedFixed([a, b]);
  }

  lemma RunThree(es: Entries, ops: seq<Operation>)
    requires |ops| == 3
    ensures Run(es, ops) == Apply(Apply(Apply(es, ops[0]), ops[1]), ops[2])
  {
    var two := ops[1..];
    var one := two[1..];
    var e2 := Apply(Apply(es, ops[0]), ops[1]);
    assert Run(e2, one) == Run(Apply(e2, ops[2]), one[1..]);
    assert one[1..] == [];
    assert Run(es, ops) == Run(Apply(es, ops[0]), two);
  }

  lemma RunFour(es: Entries, ops: seq<Operation>)
    requires |ops| == 4
    ensures Run(es, ops) == Apply(Apply(Apply(Apply(es, ops[0]), ops[1]), ops[2]), ops[3])
  {
    RunThree(Apply(es, ops[0]), ops[1..]);
  }
}

// The store as the process holds it, and the disk that outlives the process.
module JsonStore {
  import opened Outcomes
  import opened Utf16
  import opened Store

  /** The directory of the store: what is in `actions.json`, and in its temporary file. */
  class Disk {
    var file: Option<Entries>
    var temporary: Option<Entries>

    constructor ()
      ensures file == None && temporary == None
    {
      file := None;
      temporary := None;
    }

    /** What a process starting now would load. */
    function Saved(): (es: Entries)
      reads this
    {
      if file.Some? then file.value else []
    }
  }

  /** How far a flush gets: to its end, or to a failure or a kill before, inside or after the write. */
  datatype Fate = Completes | FailsBeforeWrite | FailsWriting(partial: Entries) | FailsBeforeRename

  class JsonFileStore {
    var actions: Entries
    const disk: Disk

    ghost predicate Valid()
      reads this
    {
      Unique(actions)
    }

    /** Loads whatever the file holds, in a first process or after any crash. */
    constructor (disk: Disk)
      ensures Valid() && this.disk == disk
      ensures actions == Load(disk.Saved())
      ensures Unique(disk.Saved()) ==> actions == disk.Saved()
    {
      this.disk := disk;
      actions := [];
      new;
      var file := disk.Saved();
      for i := 0 to |file|
        invariant actions == Load(file[..i]) && Unique(actions)
        invariant disk == this.disk && file == disk.Saved()
      {
        assert file[..i + 1][..i] == file[..i];
        PutUnique(actions, file[i]);
        actions := Put(actions, file[i]);
      }
      assert file[..|file|] == file;
      if Unique(file) { LoadFixed(file); }
    }

    /** `save`. Memory changes first; the file only if the flush completes. */
    method Save(action: StoredAction, fate: Fate) returns (flushed: bool)
      requires Valid()
      modifies this, disk
      ensures Valid()
      ensures actions == Put(old(actions), action)
      ensures flushed <==> fate.Completes?
      ensures flushed ==> disk.file == Some(All(actions))
      ensures !flushed ==> disk.file == old(disk.file)
    {
      PutUnique(actions, action);
      actions := Put(actions, action);
      flushed := Flush(fate);
    }

    /** `recordBroadcast`. */
    method RecordBroadcast(id: Text, broadcast: BroadcastRecord, fate: Fate)
      returns (updated: Option<StoredAction>, flushed: bool)
      requires Valid()
      modifies this, disk
      ensures Valid()
      ensures updated.Some? <==> Find(old(actions), id).Some?
      ensures updated.Some? ==> updated.value == Find(old(actions), id).value.(broadcast := Some(broadcast))
      ensures actions == Recorded(old(actions), id, broadcast)
      ensures flushed <==> updated.Some? && fate.Completes?
      ensures flushed ==> disk.file == Some(All(actions))
      ensures !flushed ==> disk.file == old(disk.file)
    {
      match Find(actions, id) {
        case None =>
          updated, flushed := None, false;
        case Some(a) =>
          var changed := a.(broadcast := Some(broadcast));
          PutUnique(actions, changed);
          actions := Put(actions, changed);
          flushed := Flush(fate);
          updated := Some(changed);
      }
    }

    /** Writes everything to the temporary file, then renames it over the file in one step. */
    method Flush(fate: Fate) returns (flushed: bool)
      requires Valid()
      modifies disk
      ensures Valid()
      ensures flushed <==> fate.Completes?
      ensures disk.file == if flushed then Some(All(actions)) else old(disk.file)
    {
      if fate.FailsBeforeWrite? { return false; }
      if fate.FailsWriting? {
        disk.temporary := Some(fate.partial);
        return false;
      }
      disk.temporary := Some(All(actions));
      if fate.FailsBeforeRename? { return false; }
      AllIsStableSort(actions, 0);
      AllUnique(actions);
      disk.file := disk.temporary;
      disk.temporary := None;
      return true;
    }
  }

  /** After a flush that completed, a new process finds what the old one held. */
  method Restart(store: JsonFileStore) returns (reloaded: JsonFileStore)
    requires store.Valid() && store.disk.file == Some(All(store.actions))
    ensures reloaded.Valid() && reloaded.disk == store.disk
    ensures Alike(reloaded.actions, store.actions)
    ensures forall id :: Find(reloaded.actions, id) == Find(store.actions, id)
  {
    reloaded := new JsonFileStore(store.disk);
    AllIsStableSort(store.actions, 0);
    AllUnique(store.actions);
    SortedFixed(All(store.actions));
    AlikeMembers(reloaded.actions, store.actions);
  }
}
