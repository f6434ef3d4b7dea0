/**
 Conservation of pooled resources over every interleaving of creations, removals and
 clean-ups, and what happens when two removals of one id overlap.
 */
module ProcessRuns {
  import opened Collections
  import opened ProcessManager

  /** Everything that live processes hold. */
  ghost function Held<R>(procs: seq<Proc<R>>): (r: multiset<R>) {
    if procs == [] then multiset{}
    else Held(procs[..|procs| - 1]) + multiset(procs[|procs| - 1].resources)
  }

  /** The free resources and the held ones. */
  ghost function Everything<R>(s: State<R>): (r: multiset<R>) {
    multiset(s.available) + Held(s.procs)
  }

  lemma HeldSnoc<R>(procs: seq<Proc<R>>, p: Proc<R>)
    ensures Held(procs + [p]) == Held(procs) + multiset(p.resources)
  {
    assert (procs + [p])[..|procs|] == procs;
  }

  lemma Exchange<R>(a: multiset<R>, b: multiset<R>, c: multiset<R>)
    ensures a + b + c == a + c + b
  {
  }

  lemma {:induction false} HeldWithout<R>(procs: seq<Proc<R>>, i: nat)
    requires i < |procs|
    ensures Held(procs) == Held(RemoveAt(procs, i)) + multiset(procs[i].resources)
  {
    var n := |procs| - 1;
    if i < n {
      HeldWithout(procs[..n], i);
      assert RemoveAt(procs, i) == RemoveAt(procs[..n], i) + [procs[n]];
      HeldSnoc(RemoveAt(procs[..n], i), procs[n]);
      Exchange(Held(RemoveAt(procs[..n], i)), multiset(procs[i].resources), multiset(procs[n].resources));
    } else {
      assert RemoveAt(procs, i) == procs[..n];
    }
  }

  // ---------- what a creation gives ----------

  /**
   A creation succeeds iff the id is unknown and there are as many free resources as it asks
   for; the new process then holds exactly the first of them, and the pool exactly the others.
   */
  lemma CreateGives<R>(s: State<R>, id: string, count: int)
    ensures var (r, created) := CreateStep(s, id, count);
      && (created <==>
            (forall i :: 0 <= i < |s.procs| ==> s.procs[i].id != id) && (count == 0 || count <= |s.available|))
      && (created && count >= 0 ==>
            r == State(s.available[count..], s.procs + [Proc(id, s.available[..count])], s.removals))
      && (created && count < 0 ==> r == State(s.available, s.procs + [Proc(id, [])], s.removals))
      && (!created ==> r == s)
  {
  }

  /** Position i of the processes is held by one that call j created. */
  ghost predicate CreatedBy<R>(s: State<R>, ops: seq<Op>, p: Proc<R>, j: nat) {
    && j < |ops| && ops[j].Create? && ops[j].id == p.id
    && (forall i :: 0 <= i < |Run(s, ops[..j]).procs| ==> Run(s, ops[..j]).procs[i].id != p.id)
    && |p.resources| == (if ops[j].count < 0 then 0 else ops[j].count)
    && p.resources <= Run(s, ops[..j]).available
  }

  lemma CreatedEarlier<R>(s: State<R>, ops: seq<Op>, p: Proc<R>, j: nat, op: Op)
    requires CreatedBy(s, ops, p, j)
    ensures CreatedBy(s, ops + [op], p, j)
  {
    assert (ops + [op])[..j] == ops[..j];
  }

  lemma BeginAllProcs<R>(s: State<R>, procs: seq<Proc<R>>)
    ensures BeginAll(s, procs).procs == s.procs && BeginAll(s, procs).available == s.available
  {
  }

  /** A call keeps processes, creates one, or deletes one. */
  lemma ProcsAfter<R>(s: State<R>, op: Op, i: nat)
    requires i < |Step(s, op).procs|
    ensures var p := Step(s, op).procs[i];
      p in s.procs || (op.Create? && CreateStep(s, op.id, op.count).1 && i == |s.procs|)
  {
    match op
    case Create(_, _) =>
    case Begin(_) =>
    case Resume(_, _) =>
    case Cleanup => BeginAllProcs(s, s.procs);
  }

  /**
   In every run, whatever overlaps, each stored process holds what its creation asked for:
   that many, the first that were free then.
   */
  lemma {:induction false} HoldsWhatItAsked<R>(s: State<R>, ops: seq<Op>, i: nat) returns (j: nat)
    requires s.procs == [] && i < |Run(s, ops).procs|
    ensures CreatedBy(s, ops, Run(s, ops).procs[i], j)
  {
    var n := |ops| - 1;
    var m, op, p := Run(s, ops[..n]), ops[n], Run(s, ops).procs[i];
    ProcsAfter(m, op, i);
    if p in m.procs {
      var k :| 0 <= k < |m.procs| && m.procs[k] == p;
      j := HoldsWhatItAsked(s, ops[..n], k);
      CreatedEarlier(s, ops[..n], p, j, op);
      assert ops[..n] + [op] == ops;
    } else {
      CreateGives(m, op.id, op.count);
      j := n;
    }
  }

  // ---------- removals in flight ----------

  /** The position of a suspended removal of the id, or -1. */
  function FindRemoval<R>(removals: seq<Removal<R>>, id: string): (k: int)
    ensures -1 <= k < |removals|
    ensures k >= 0 ==> removals[k].proc.id == id
    ensures k < 0 ==> forall j :: 0 <= j < |removals| ==> removals[j].proc.id != id
  {
    if removals == [] then -1
    else if removals[|removals| - 1].proc.id == id then |removals| - 1
    else FindRemoval(removals[..|removals| - 1], id)
  }

  predicate InFlight<R>(s: State<R>, id: string) {
    FindRemoval(s.removals, id) >= 0
  }

  /** No call begins to remove an id whose removal is still suspended. */
  predicate Allowed<R>(s: State<R>, op: Op) {
    match op
    case Begin(id) => !InFlight(s, id)
    case Cleanup => s.removals == []
    case _ => true
  }

  predicate Disciplined<R>(s: State<R>, ops: seq<Op>) {
    ops != [] ==> Disciplined(s, ops[..|ops| - 1]) && Allowed(Run(s, ops[..|ops| - 1]), ops[|ops| - 1])
  }

  ghost predicate DistinctIds<R>(procs: seq<Proc<R>>) {
    forall i, j :: 0 <= i < j < |procs| ==> procs[i].id != procs[j].id
  }

  /** Every suspended removal is the only one of a process that is still stored as it was captured. */
  ghost predicate Tracked<R>(s: State<R>) {
    && (forall k :: 0 <= k < |s.removals| ==>
          var i := FindProc(s.procs, s.removals[k].proc.id); i >= 0 && s.procs[i] == s.removals[k].proc)
    && (forall j, k :: 0 <= j < k < |s.removals| ==> s.removals[j].proc.id != s.removals[k].proc.id)
  }

  ghost predicate Good<R>(s: State<R>, initial: multiset<R>) {
    DistinctIds(s.procs) && Tracked(s) && Everything(s) == initial
  }

  // ---------- what each step keeps ----------

  /** A process under a new id changes nothing for the others. */
  lemma AddTracks<R>(s: State<R>, p: Proc<R>)
    requires DistinctIds(s.procs) && Tracked(s) && FindProc(s.procs, p.id) < 0
    ensures DistinctIds(s.procs + [p]) && Tracked(s.(procs := s.procs + [p]))
  {
    var r := s.(procs := s.procs + [p]);
    assert r.procs[..|s.procs|] == s.procs;
    forall k | 0 <= k < |r.removals|
      ensures FindProc(r.procs, r.removals[k].proc.id) == FindProc(s.procs, r.removals[k].proc.id)
    {
    }
  }

  lemma TakeKeeps<R>(available: seq<R>, procs: seq<Proc<R>>, id: string, n: nat)
    requires n <= |available|
    ensures multiset(available[n..]) + Held(procs + [Proc(id, available[..n])]) == multiset(available) + Held(procs)
  {
    var taken, left := multiset(available[..n]), multiset(available[n..]);
    HeldSnoc(procs, Proc(id, available[..n]));
    assert available == available[..n] + available[n..];
    Exchange(left, Held(procs), taken);
  }

  lemma CreateKeeps<R>(s: State<R>, id: string, count: int, initial: multiset<R>)
    requires Good(s, initial)
    ensures Good(CreateStep(s, id, count).0, initial)
  {
    if CreateStep(s, id, count).1 {
      AddTracks(s, Proc(id, s.available[..Taken(count)]));
      TakeKeeps(s.available, s.procs, id, Taken(count));
    }
  }

  lemma BeginKeeps<R>(s: State<R>, id: string, initial: multiset<R>)
    requires Good(s, initial) && !InFlight(s, id)
    ensures Good(BeginStep(s, id), initial)
  {
  }

  /** In a list without repeated ids a process is found where it stands. */
  lemma FoundAt<R>(procs: seq<Proc<R>>, i: nat)
    requires DistinctIds(procs) && i < |procs|
    ensures FindProc(procs, procs[i].id) == i
  {
  }

  /** A suspended removal has gone all its way. */
  function Finished<R>(s: State<R>, k: nat): (r: State<R>)
    requires k < |s.removals|
  {
    var p := s.removals[k].proc;
    State(s.available + p.resources, Delete(s.procs, p.id), RemoveAt(s.removals, k))
  }

  /** Deleting one process leaves the others to be found. */
  lemma DeleteFinds<R>(procs: seq<Proc<R>>, gone: string, id: string)
    requires DistinctIds(procs) && gone != id && FindProc(procs, gone) >= 0 && FindProc(procs, id) >= 0
    ensures DistinctIds(Delete(procs, gone))
    ensures var i := FindProc(Delete(procs, gone), id); i >= 0 && Delete(procs, gone)[i] == procs[FindProc(procs, id)]
  {
    var i, at := FindProc(procs, id), FindProc(procs, gone);
    FoundAt(Delete(procs, gone), if i < at then i else i - 1);
  }

  lemma FinishTracks<R>(s: State<R>, k: nat)
    requires DistinctIds(s.procs) && Tracked(s) && k < |s.removals|
    ensures Tracked(Finished(s, k))
  {
    var p := s.removals[k].proc;
    var procs, removals := Delete(s.procs, p.id), RemoveAt(s.removals, k);
    forall j | 0 <= j < |removals|
      ensures var at := FindProc(procs, removals[j].proc.id); at >= 0 && procs[at] == removals[j].proc
    {
      assert removals[j] == s.removals[if j < k then j else j + 1];
      DeleteFinds(s.procs, p.id, removals[j].proc.id);
    }
  }

  lemma FinishKeeps<R>(s: State<R>, k: nat, initial: multiset<R>)
    requires Good(s, initial) && k < |s.removals|
    ensures Good(Finished(s, k), initial)
  {
    FinishTracks(s, k);
    HeldWithout(s.procs, FindProc(s.procs, s.removals[k].proc.id));
  }

  lemma ResumeKeeps<R>(s: State<R>, k: nat, ok: bool, initial: multiset<R>)
    requires Good(s, initial)
    ensures Good(ResumeStep(s, k, ok), initial)
  {
    if k < |s.removals| {
      if s.removals[k].stage == Terminating {
        FinishKeeps(s, k, initial);
      } else if ok {
        var r := ResumeStep(s, k, ok);
        assert forall j :: 0 <= j < |r.removals| ==> r.removals[j].proc == s.removals[j].proc;
      }
    }
  }

  /** The removals that a clean-up begins. */
  function Begun<R>(procs: seq<Proc<R>>): (r: seq<Removal<R>>)
    ensures |r| == |procs|
    ensures forall k :: 0 <= k < |procs| ==> r[k] == Removal(procs[k], Cleaning)
  {
    seq(|procs|, k requires 0 <= k < |procs| => Removal(procs[k], Cleaning))
  }

  lemma BegunNext<R>(procs: seq<Proc<R>>, n: nat)
    requires 0 < n <= |procs|
    ensures Begun(procs[..n]) == Begun(procs[..n - 1]) + [Removal(procs[n - 1], Cleaning)]
  {
  }

  lemma {:induction false} BeginAllClosed<R>(s: State<R>, n: nat)
    requires DistinctIds(s.procs) && s.removals == [] && n <= |s.procs|
    ensures BeginAll(s, s.procs[..n]) == s.(removals := Begun(s.procs[..n]))
  {
    if n > 0 {
      BeginAllClosed(s, n - 1);
      FoundAt(s.procs, n - 1);
      assert s.procs[..n][..n - 1] == s.procs[..n - 1];
      BegunNext(s.procs, n);
    }
  }

  lemma BegunTracked<R>(s: State<R>, initial: multiset<R>)
    requires Good(s, initial)
    ensures Good(s.(removals := Begun(s.procs)), initial)
  {
    forall k | 0 <= k < |s.procs|
      ensures FindProc(s.procs, s.procs[k].id) == k
    {
      FoundAt(s.procs, k);
    }
  }

  lemma CleanupKeeps<R>(s: State<R>, initial: multiset<R>)
    requires Good(s, initial) && s.removals == []
    ensures Step(s, Cleanup) == s.(removals := Begun(s.procs))
    ensures Good(Step(s, Cleanup), initial)
  {
    BegunTracked(s, initial);
    BeginAllClosed(s, |s.procs|);
    assert s.procs[..|s.procs|] == s.procs;
  }

  /**
   Over every interleaving with at most one removal in flight per id, the free resources
   and those of the live processes are together what there was at the start.
   */
  lemma {:induction false} Conservation<R>(s: State<R>, ops: seq<Op>, initial: multiset<R>)
    requires Good(s, initial) && Disciplined(s, ops)
    ensures Good(Run(s, ops), initial)
  {
    if ops != [] {
      var earlier, op := ops[..|ops| - 1], ops[|ops| - 1];
      var m := Run(s, earlier);
      Conservation(s, earlier, initial);
      match op
      case Create(id, count) => CreateKeeps(m, id, count, initial);
      case Begin(id) => BeginKeeps(m, id, initial);
      case Resume(k, ok) => ResumeKeeps(m, k, ok, initial);
      case Cleanup =>
        CleanupKeeps(m, initial);
    }
  }

  /** Only these resources are held; none is free twice, free and held, or held by two live processes. */
  ghost predicate Apart<R>(resources: seq<R>, s: State<R>) {
    && Distinct(s.available)
    && (forall i, x :: 0 <= i < |s.procs| && x in s.procs[i].resources ==> x in resources && x !in s.available)
    && (forall i, j, x :: 0 <= i < |s.procs| && 0 <= j < |s.procs| && i != j && x in s.procs[i].resources ==>
          x !in s.procs[j].resources)
  }

  /** With distinct resources no two live processes share one, and none is both free and held. */
  lemma Exclusive<R>(resources: seq<R>, ops: seq<Op>)
    requires Distinct(resources) && Disciplined(State(resources, [], []), ops)
    ensures Apart(resources, Run(State(resources, [], []), ops))
  {
    Conservation(State(resources, [], []), ops, multiset(resources));
    ApartIn(resources, Run(State(resources, [], []), ops));
  }

  lemma ApartIn<R>(resources: seq<R>, s: State<R>)
    requires Distinct(resources) && Everything(s) == multiset(resources)
    ensures Apart(resources, s)
  {
    FreeDistinct(resources, s);
    forall i, x | 0 <= i < |s.procs| && x in s.procs[i].resources
      ensures x in resources && x !in s.available
    {
      HeldOnce(resources, s, i, x);
    }
    forall i, j, x | 0 <= i < |s.procs| && 0 <= j < |s.procs| && i != j && x in s.procs[i].resources
      ensures x !in s.procs[j].resources
    {
      HeldOnce(resources, s, i, x);
    }
  }

  lemma FreeDistinct<R>(resources: seq<R>, s: State<R>)
    requires Distinct(resources) && Everything(s) == multiset(resources)
    ensures Distinct(s.available)
  {
    forall i, j | 0 <= i < j < |s.available|
      ensures s.available[i] != s.available[j]
    {
      AtMostOnce(resources, s.available[i]);
      if s.available[i] == s.available[j] {
        Twice(s.available, i, j);
      }
    }
  }

  lemma {:induction false} HoldsPart<R>(procs: seq<Proc<R>>, i: nat, x: R)
    requires i < |procs|
    ensures multiset(procs[i].resources)[x] <= Held(procs)[x]
  {
    if i < |procs| - 1 {
      HoldsPart(procs[..|procs| - 1], i, x);
    }
  }

  /** What two processes hold is part of what all hold. */
  lemma {:induction false} TwoHold<R>(procs: seq<Proc<R>>, i: nat, j: nat, x: R)
    requires i < j < |procs|
    ensures multiset(procs[i].resources)[x] + multiset(procs[j].resources)[x] <= Held(procs)[x]
  {
    if j < |procs| - 1 {
      TwoHold(procs[..|procs| - 1], i, j, x);
    } else {
      HoldsPart(procs[..j], i, x);
    }
  }

  lemma HeldOnce<R>(resources: seq<R>, s: State<R>, i: nat, x: R)
    requires Distinct(resources) && Everything(s) == multiset(resources)
    requires i < |s.procs| && x in s.procs[i].resources
    ensures x in resources && x !in s.available
    ensures forall j :: 0 <= j < |s.procs| && j != i ==> x !in s.procs[j].resources
  {
    AtMostOnce(resources, x);
    HoldsPart(s.procs, i, x);
    assert x in multiset(s.procs[i].resources);
    assert x in multiset(resources) && x !in multiset(s.available);
    forall j | 0 <= j < |s.procs| && j != i
      ensures x !in s.procs[j].resources
    {
      TwoHold(s.procs, if i < j then i else j, if i < j then j else i, x);
      assert x !in multiset(s.procs[j].resources);
    }
  }

  lemma {:induction false} AtMostOnce<R>(s: seq<R>, x: R)
    requires Distinct(s)
    ensures multiset(s)[x] <= 1
  {
    if s != [] {
      var n := |s| - 1;
      AtMostOnce(s[..n], x);
      assert s == s[..n] + [s[n]];
      assert s[n] !in s[..n];
      assert s[n] !in multiset(s[..n]);
    }
  }

  lemma Twice<R>(s: seq<R>, i: nat, j: nat)
    requires i < j < |s| && s[i] == s[j]
    ensures multiset(s)[s[i]] >= 2
  {
    var a := s[..j];
    assert s == a + [s[j]] + s[j + 1..];
    assert a[i] in multiset(a);
  }

  // ---------- the segments of a removal ----------

  /** What goes on in the segments of a removal: nothing is given back or deleted before the last one. */
  lemma Segments<R>(s: State<R>, k: nat, ok: bool)
    requires k < |s.removals|
    ensures var removal, r := s.removals[k], ResumeStep(s, k, ok);
      && (removal.stage == Cleaning ==> r.available == s.available && r.procs == s.procs)
      && (removal.stage == Cleaning && ok ==> r.removals == s.removals[k := Removal(removal.proc, Terminating)])
      && (removal.stage == Cleaning && !ok ==> r.removals == RemoveAt(s.removals, k))
      && (removal.stage == Terminating ==> r == Finished(s, k))
  {
  }

  /** Resources that were free before are handed out before those just given back. */
  lemma GivenBackLast<R>(s: State<R>, k: nat, id: string, count: nat)
    requires k < |s.removals| && s.removals[k].stage == Terminating && count <= |s.available|
    ensures var (r, created) := CreateStep(ResumeStep(s, k, true), id, count);
      created ==> r.procs[|r.procs| - 1] == Proc(id, s.available[..count])
  {
    var p := s.removals[k].proc;
    assert (s.available + p.resources)[..count] == s.available[..count];
  }

  // ---------- clean-up ----------

  /** Every stored process is being removed, or was created since. */
  ghost predicate Draining<R>(s: State<R>, ids: set<string>) {
    forall i :: 0 <= i < |s.procs| ==> InFlight(s, s.procs[i].id) || s.procs[i].id in ids
  }

  /** The ids that creations ask for. */
  function Requested(ops: seq<Op>): (r: set<string>) {
    if ops == [] then {}
    else Requested(ops[..|ops| - 1]) + (if ops[|ops| - 1].Create? then {ops[|ops| - 1].id} else {})
  }

  lemma FoundRemoval<R>(removals: seq<Removal<R>>, k: nat)
    requires k < |removals|
    ensures FindRemoval(removals, removals[k].proc.id) >= 0
  {
  }

  lemma OthersInFlight<R>(removals: seq<Removal<R>>, k: nat, id: string)
    requires k < |removals| && removals[k].proc.id != id && FindRemoval(removals, id) >= 0
    ensures FindRemoval(RemoveAt(removals, k), id) >= 0
  {
    var j, rest := FindRemoval(removals, id), RemoveAt(removals, k);
    var j' := if j < k then j else j - 1;
    assert rest[j'] == removals[j];
    FoundRemoval(rest, j');
  }

  lemma FinishDrains<R>(s: State<R>, k: nat, ids: set<string>, initial: multiset<R>)
    requires Good(s, initial) && Draining(s, ids) && k < |s.removals|
    ensures Draining(Finished(s, k), ids)
  {
    var r, p := Finished(s, k), s.removals[k].proc;
    var at := FindProc(s.procs, p.id);
    assert r.procs == RemoveAt(s.procs, at);
    forall i | 0 <= i < |r.procs|
      ensures InFlight(r, r.procs[i].id) || r.procs[i].id in ids
    {
      var q := s.procs[if i < at then i else i + 1];
      assert r.procs[i] == q && q.id != p.id;
      if InFlight(s, q.id) {
        OthersInFlight(s.removals, k, q.id);
      }
    }
  }

  lemma AdvanceDrains<R>(s: State<R>, k: nat, ids: set<string>)
    requires Draining(s, ids) && k < |s.removals| && s.removals[k].stage == Cleaning
    ensures Draining(ResumeStep(s, k, true), ids)
  {
    var r := ResumeStep(s, k, true);
    forall i | 0 <= i < |r.procs|
      ensures InFlight(r, r.procs[i].id) || r.procs[i].id in ids
    {
      var j := FindRemoval(s.removals, r.procs[i].id);
      if j >= 0 {
        assert r.removals[j].proc == s.removals[j].proc;
        FoundRemoval(r.removals, j);
      }
    }
  }

  /** The removal that a call abandons because its cleanup callback failed. */
  function AbandonedBy<R>(s: State<R>, op: Op): (r: set<string>) {
    if op.Resume? && !op.ok && op.k < |s.removals| && s.removals[op.k].stage == Cleaning
    then {s.removals[op.k].proc.id}
    else {}
  }

  /** The ids whose removals were abandoned. */
  function Abandoned<R>(s: State<R>, ops: seq<Op>): (r: set<string>) {
    if ops == [] then {}
    else Abandoned(s, ops[..|ops| - 1]) + AbandonedBy(Run(s, ops[..|ops| - 1]), ops[|ops| - 1])
  }

  lemma AbandonDrains<R>(s: State<R>, k: nat, ids: set<string>)
    requires Draining(s, ids) && k < |s.removals| && s.removals[k].stage == Cleaning
    ensures Draining(ResumeStep(s, k, false), ids + {s.removals[k].proc.id})
  {
    var r := ResumeStep(s, k, false);
    forall i | 0 <= i < |r.procs|
      ensures InFlight(r, r.procs[i].id) || r.procs[i].id in ids + {s.removals[k].proc.id}
    {
      if InFlight(s, r.procs[i].id) && r.procs[i].id != s.removals[k].proc.id {
        OthersInFlight(s.removals, k, r.procs[i].id);
      }
    }
  }

  lemma BeginDrains<R>(s: State<R>, id: string, ids: set<string>)
    requires Draining(s, ids)
    ensures Draining(BeginStep(s, id), ids)
  {
    var r := BeginStep(s, id);
    forall i | 0 <= i < |r.procs|
      ensures InFlight(r, r.procs[i].id) || r.procs[i].id in ids
    {
      var j := FindRemoval(s.removals, r.procs[i].id);
      if j >= 0 {
        assert r.removals[j] == s.removals[j];
        FoundRemoval(r.removals, j);
      }
    }
  }

  lemma CleanupBegins<R>(s: State<R>, initial: multiset<R>)
    requires Good(s, initial) && s.removals == []
    ensures Draining(Step(s, Cleanup), {})
  {
    CleanupKeeps(s, initial);
    var m := Step(s, Cleanup);
    forall i | 0 <= i < |m.procs|
      ensures InFlight(m, m.procs[i].id)
    {
      FoundRemoval(m.removals, i);
    }
  }

  lemma ResumeDrains<R>(s: State<R>, k: nat, ok: bool, ids: set<string>, initial: multiset<R>)
    requires Good(s, initial) && Draining(s, ids)
    ensures Draining(ResumeStep(s, k, ok), ids + AbandonedBy(s, Resume(k, ok)))
  {
    if k < |s.removals| {
      if s.removals[k].stage == Terminating {
        FinishDrains(s, k, ids, initial);
      } else if ok {
        AdvanceDrains(s, k, ids);
      } else {
        AbandonDrains(s, k, ids);
      }
    }
  }

  lemma StepDrains<R>(s: State<R>, op: Op, ids: set<string>, initial: multiset<R>)
    requires Good(s, initial) && Draining(s, ids) && Allowed(s, op)
    ensures Draining(Step(s, op), ids + AbandonedBy(s, op) + if op.Create? then {op.id} else {})
  {
    match op
    case Create(id, count) =>
    case Begin(id) => BeginDrains(s, id, ids);
    case Resume(k, ok) => ResumeDrains(s, k, ok, ids, initial);
    case Cleanup => CleanupBegins(s, initial);
  }

  lemma {:induction false} StillDraining<R>(s: State<R>, ops: seq<Op>, initial: multiset<R>)
    requires Good(s, initial) && Draining(s, {}) && Disciplined(s, ops)
    ensures Draining(Run(s, ops), Requested(ops) + Abandoned(s, ops))
  {
    if ops != [] {
      var earlier, op := ops[..|ops| - 1], ops[|ops| - 1];
      StillDraining(s, earlier, initial);
      Conservation(s, earlier, initial);
      var m, ids := Run(s, earlier), Requested(earlier) + Abandoned(s, earlier);
      StepDrains(m, op, ids, initial);
      assert Requested(ops) + Abandoned(s, ops) == ids + AbandonedBy(m, op) + if op.Create? then {op.id} else {};
    }
  }

  /**
   A clean-up with no removal in flight: once no removal is suspended any more, in whatever
   order they went on and whatever was created or removed in between, every process that is
   left was created since, or its cleanup callback failed; and without such, every resource is
   free again.
   */
  lemma CleanupDrains<R>(s: State<R>, ops: seq<Op>, initial: multiset<R>)
    requires Good(s, initial) && s.removals == []
    requires Disciplined(Step(s, Cleanup), ops) && Run(Step(s, Cleanup), ops).removals == []
    ensures var m := Step(s, Cleanup);
      var r, ids := Run(m, ops), Requested(ops) + Abandoned(m, ops);
      && (forall i :: 0 <= i < |r.procs| ==> r.procs[i].id in ids)
      && (ids == {} ==> r.procs == [] && multiset(r.available) == initial)
  {
    var m := Step(s, Cleanup);
    CleanupKeeps(s, initial);
    CleanupBegins(s, initial);
    StillDraining(m, ops, initial);
    Conservation(m, ops, initial);
    var r := Run(m, ops);
    assert Requested(ops) + Abandoned(m, ops) == {} ==> r.procs == [] by {
      if r.procs != [] {
        assert !InFlight(r, r.procs[0].id);
      }
    }
  }

  // ---------- overlapping removals ----------

  /** Creations and successful segments, in any order. */
  predicate Clean(op: Op) {
    op.Create? || (op.Resume? && op.ok)
  }

  /** Calls that begin no removal are always allowed. */
  lemma {:induction false} NoBeginAllowed<R>(s: State<R>, ops: seq<Op>)
    requires forall i :: 0 <= i < |ops| ==> Clean(ops[i])
    ensures Disciplined(s, ops)
  {
    if ops != [] {
      NoBeginAllowed(s, ops[..|ops| - 1]);
    }
  }

  lemma {:induction false} DisciplinedAppend<R>(s: State<R>, a: seq<Op>, b: seq<Op>)
    requires Disciplined(s, a) && Disciplined(Run(s, a), b)
    ensures Disciplined(s, a + b)
  {
    if b == [] {
      assert a + b == a;
    } else {
      var init := b[..|b| - 1];
      DisciplinedAppend(s, a, init);
      RunAppend(s, a, init);
      assert (a + b)[..|a + b| - 1] == a + init;
    }
  }

  lemma RunExtended<R>(s: State<R>, ops: seq<Op>, op: Op)
    ensures Run(s, ops + [op]) == Step(Run(s, ops), op)
  {
    assert (ops + [op])[..|ops|] == ops;
  }

  lemma {:induction false} RunAppend<R>(s: State<R>, a: seq<Op>, b: seq<Op>)
    ensures Run(s, a + b) == Run(Run(s, a), b)
  {
    if b == [] {
      assert a + b == a;
    } else {
      RunAppend(s, a, b[..|b| - 1]);
      assert (a + b)[..|a + b| - 1] == a + b[..|b| - 1];
    }
  }

  /** A suspended removal goes all its way; the other ones and the other processes stay. */
  lemma Finishes<R>(s: State<R>, k: nat) returns (ops: seq<Op>)
    requires k < |s.removals|
    ensures forall i :: 0 <= i < |ops| ==> Clean(ops[i])
    ensures Run(s, ops) == Finished(s, k)
  {
    var op := Resume(k, true);
    RunExtended(s, [], op);
    assert [] + [op] == [op];
    if s.removals[k].stage == Terminating {
      ops := [op];
    } else {
      ops := [op, op];
      RunExtended(s, [op], op);
      assert [op] + [op] == [op, op];
      assert RemoveAt(Step(s, op).removals, k) == RemoveAt(s.removals, k);
    }
  }

  lemma Gone<R>(procs: seq<Proc<R>>, id: string)
    requires DistinctIds(procs)
    ensures FindProc(Delete(procs, id), id) < 0
  {
  }

  /** The first of two overlapping removals finishes; the other one is left without its process. */
  lemma FirstFinishes<R>(s: State<R>, id: string, initial: multiset<R>) returns (ops: seq<Op>, m: nat)
    requires Good(s, initial) && InFlight(s, id)
    ensures forall i :: 0 <= i < |ops| ==> Clean(ops[i])
    ensures var t, p := Run(Step(s, Begin(id)), ops), s.procs[FindProc(s.procs, id)];
      && FindProc(t.procs, id) < 0 && m < |t.removals| && t.removals[m] == Removal(p, Cleaning)
      && p.id == id && t.available == s.available + p.resources && Everything(t) == initial
  {
    var k, i, s1 := FindRemoval(s.removals, id), FindProc(s.procs, id), Step(s, Begin(id));
    var p := s.procs[i];
    assert s1.removals == s.removals + [Removal(p, Cleaning)] && s1.removals[k].proc == p;
    m := |s.removals| - 1;
    ops := Finishes(s1, k);
    Gone(s.procs, id);
    HeldWithout(s.procs, i);
    assert RemoveAt(s1.removals, k)[m] == Removal(p, Cleaning);
  }

  /** A removal whose process is gone releases the resources once more. */
  lemma ReleasedTwice<R>(t: State<R>, m: nat, p: Proc<R>, initial: multiset<R>) returns (ops: seq<Op>)
    requires m < |t.removals| && t.removals[m] == Removal(p, Cleaning)
    requires FindProc(t.procs, p.id) < 0 && Everything(t) == initial && p.resources != []
    ensures forall i :: 0 <= i < |ops| ==> Clean(ops[i])
    ensures Everything(Run(t, ops)) != initial
  {
    ops := Finishes(t, m);
    assert |Everything(Run(t, ops))| == |initial| + |p.resources|;
  }

  /** It also deletes whatever process it finds under its id. */
  lemma LostProcess<R>(t: State<R>, m: nat, p: Proc<R>, initial: multiset<R>) returns (ops: seq<Op>)
    requires m < |t.removals| && t.removals[m] == Removal(p, Cleaning)
    requires FindProc(t.procs, p.id) < 0 && Everything(t) == initial
    requires p.resources == [] && t.available != []
    ensures forall i :: 0 <= i < |ops| ==> Clean(ops[i])
    ensures Everything(Run(t, ops)) != initial
  {
    var create := Create(p.id, 1);
    var c := Step(t, create);
    RunExtended(t, [], create);
    assert [] + [create] == [create];
    var finish := Finishes(c, m);
    ops := [create] + finish;
    RunAppend(t, [create], finish);
    Undone(t.procs, Proc(p.id, t.available[..1]));
    var r := Run(t, ops);
    assert r.available == t.available[1..] + [] && r.procs == t.procs;
    assert |Everything(r)| == |r.available| + |Held(t.procs)|;
    assert |Everything(t)| == |t.available| + |Held(t.procs)|;
  }

  lemma Undone<R>(procs: seq<Proc<R>>, p: Proc<R>)
    requires FindProc(procs, p.id) < 0
    ensures Delete(procs + [p], p.id) == procs
  {
    assert FindProc(procs + [p], p.id) == |procs|;
  }

  lemma SecondFinishes<R>(t: State<R>, m: nat, p: Proc<R>, initial: multiset<R>) returns (ops: seq<Op>)
    requires m < |t.removals| && t.removals[m] == Removal(p, Cleaning)
    requires FindProc(t.procs, p.id) < 0 && Everything(t) == initial
    requires t.available != []
    ensures forall i :: 0 <= i < |ops| ==> Clean(ops[i])
    ensures Everything(Run(t, ops)) != initial
  {
    if p.resources != [] {
      ops := ReleasedTwice(t, m, p, initial);
    } else {
      ops := LostProcess(t, m, p, initial);
    }
  }

  /** Both removals finish, and a process created in between is lost. */
  lemma BothFinish<R>(s: State<R>, id: string, initial: multiset<R>) returns (ops: seq<Op>)
    requires Good(s, initial) && InFlight(s, id)
    requires s.available != [] || s.procs[FindProc(s.procs, id)].resources != []
    ensures Disciplined(Step(s, Begin(id)), ops)
    ensures Everything(Run(Step(s, Begin(id)), ops)) != initial
  {
    var first, m := FirstFinishes(s, id, initial);
    var s1 := Step(s, Begin(id));
    var t := Run(s1, first);
    var second := SecondFinishes(t, m, s.procs[FindProc(s.procs, id)], initial);
    ops := first + second;
    RunAppend(s1, first, second);
    NoBeginAllowed(s1, ops);
  }

  lemma {:induction false} SomeHolder<R>(procs: seq<Proc<R>>) returns (i: nat)
    requires Held(procs) != multiset{}
    ensures i < |procs| && procs[i].resources != []
  {
    if procs[|procs| - 1].resources != [] {
      i := |procs| - 1;
    } else {
      i := SomeHolder(procs[..|procs| - 1]);
    }
  }

  /** Finishing one removal and beginning that of another id can be done in either order. */
  lemma FinishBegin<R>(s: State<R>, k: nat, id: string, initial: multiset<R>)
    requires Good(s, initial) && k < |s.removals| && s.removals[k].proc.id != id && InFlight(s, id)
    ensures Finished(BeginStep(s, id), k) == BeginStep(Finished(s, k), id)
    ensures InFlight(Finished(s, k), id)
  {
    var i, r := FindProc(s.procs, id), Finished(s, k);
    DeleteFinds(s.procs, s.removals[k].proc.id, id);
    OthersInFlight(s.removals, k, id);
    assert RemoveAt(BeginStep(s, id).removals, k) == r.removals + [Removal(s.procs[i], Cleaning)];
  }

  /**
   When nothing is free, and the process being removed twice holds nothing, some other process
   can be removed first, and then something is free.
   */
  lemma FreesOther<R>(s: State<R>, id: string, initial: multiset<R>) returns (ops: seq<Op>, r: State<R>)
    requires Good(s, initial) && InFlight(s, id) && initial != multiset{}
    requires s.available == [] && s.procs[FindProc(s.procs, id)].resources == []
    ensures Disciplined(Step(s, Begin(id)), ops) && Run(Step(s, Begin(id)), ops) == Step(r, Begin(id))
    ensures Good(r, initial) && InFlight(r, id) && r.available != []
  {
    var s1 := Step(s, Begin(id));
    var other := SomeHolder(s.procs);
    var q := s.procs[other];
    FoundAt(s.procs, other);
    var k := FindRemoval(s.removals, q.id);
    if k >= 0 {
      r := Finished(s, k);
      FinishKeeps(s, k, initial);
      FinishBegin(s, k, id, initial);
      ops := Finishes(s1, k);
      NoBeginAllowed(s1, ops);
    } else {
      ops, r := FreesAfterBegin(s, id, other, initial);
    }
  }

  lemma FreesAfterBegin<R>(s: State<R>, id: string, other: nat, initial: multiset<R>)
    returns (ops: seq<Op>, r: State<R>)
    requires Good(s, initial) && InFlight(s, id)
    requires other < |s.procs| && s.procs[other].resources != [] && !InFlight(s, s.procs[other].id)
    ensures Disciplined(Step(s, Begin(id)), ops) && Run(Step(s, Begin(id)), ops) == Step(r, Begin(id))
    ensures Good(r, initial) && InFlight(r, id) && r.available != []
  {
    var s1, q, n := Step(s, Begin(id)), s.procs[other], |s.removals|;
    var begin := Begin(q.id);
    var b := Step(s, begin);
    FoundAt(s.procs, other);
    BeginKeeps(s, q.id, initial);
    FinishKeeps(b, n, initial);
    assert b.removals[n].proc == q;
    r := Finished(b, n);
    assert r.removals == s.removals;
    var b1 := Step(s1, begin);
    assert q.id != id && !InFlight(s1, q.id);
    RunExtended(s1, [], begin);
    assert [] + [begin] == [begin];
    var finish := Finishes(b1, n + 1);
    DeleteFinds(s.procs, q.id, id);
    assert RemoveAt(b1.removals, n + 1) == s1.removals;
    ops := [begin] + finish;
    RunAppend(s1, [begin], finish);
    assert [begin][..0] == [] && Disciplined(s1, [begin]);
    NoBeginAllowed(b1, finish);
    DisciplinedAppend(s1, [begin], finish);
  }

  /**
   The discipline is needed: when a removal of an id begins while another one is suspended,
   finishing both releases the resources twice, or a process created under the id in between is
   lost together with what it holds. Only if there are no resources at all is there no harm.
   */
  lemma OverlapBreaks<R>(s: State<R>, id: string, initial: multiset<R>) returns (ops: seq<Op>)
    requires Good(s, initial) && InFlight(s, id) && initial != multiset{}
    ensures Disciplined(Step(s, Begin(id)), ops)
    ensures Everything(Run(Step(s, Begin(id)), ops)) != initial
  {
    if s.available != [] || s.procs[FindProc(s.procs, id)].resources != [] {
      ops := BothFinish(s, id, initial);
    } else {
      var before, r := FreesOther(s, id, initial);
      var after := BothFinish(r, id, initial);
      DisciplinedAppend(Step(s, Begin(id)), before, after);
      RunAppend(Step(s, Begin(id)), before, after);
      ops := before + after;
    }
  }

  /** Nobody holds anything, nor will a suspended removal release anything. */
  ghost predicate Barren<R>(s: State<R>) {
    && s.available == []
    && (forall i :: 0 <= i < |s.procs| ==> s.procs[i].resources == [])
    && (forall k :: 0 <= k < |s.removals| ==> s.removals[k].proc.resources == [])
  }

  lemma {:induction false} BarrenHolds<R>(procs: seq<Proc<R>>)
    ensures Held(procs) == multiset{} <==> forall i :: 0 <= i < |procs| ==> procs[i].resources == []
  {
    if procs != [] {
      BarrenHolds(procs[..|procs| - 1]);
      assert multiset(procs[|procs| - 1].resources) == multiset{} <==> procs[|procs| - 1].resources == [] by {
        assert |multiset(procs[|procs| - 1].resources)| == |procs[|procs| - 1].resources|;
      }
    }
  }

  lemma {:induction false} BarrenBegin<R>(s: State<R>, procs: seq<Proc<R>>)
    requires Barren(s)
    ensures Barren(BeginAll(s, procs))
  {
    if procs != [] {
      BarrenBegin(s, procs[..|procs| - 1]);
    }
  }

  lemma {:induction false} BarrenStays<R>(s: State<R>, ops: seq<Op>)
    requires Barren(s)
    ensures Barren(Run(s, ops))
  {
    if ops != [] {
      var m := Run(s, ops[..|ops| - 1]);
      BarrenStays(s, ops[..|ops| - 1]);
      match ops[|ops| - 1]
      case Cleanup => BarrenBegin(m, m.procs);
      case _ =>
    }
  }

  lemma NothingToLose<R>(s: State<R>, id: string, ops: seq<Op>)
    requires Good(s, multiset{})
    ensures Everything(Run(Step(s, Begin(id)), ops)) == multiset{}
  {
    BarrenHolds(s.procs);
    assert s.available == [] by {
      assert |multiset(s.available)| == |s.available|;
    }
    assert Barren(s);
    var s1 := Step(s, Begin(id));
    BarrenStays(s1, ops);
    BarrenHolds(Run(s1, ops).procs);
  }

  /**
   Beginning a removal is safe for every disciplined future iff none of the same id is
   suspended, or there are no resources at all.
   */
  lemma BeginSafeIff<R(!new)>(s: State<R>, id: string, initial: multiset<R>)
    requires Good(s, initial)
    ensures !InFlight(s, id) || initial == multiset{} <==>
            forall ops :: Disciplined(Step(s, Begin(id)), ops) ==> Everything(Run(Step(s, Begin(id)), ops)) == initial
  {
    if InFlight(s, id) && initial != multiset{} {
      var ops := OverlapBreaks(s, id, initial);
    } else {
      forall ops | Disciplined(Step(s, Begin(id)), ops)
        ensures Everything(Run(Step(s, Begin(id)), ops)) == initial
      {
        if !InFlight(s, id) {
          BeginKeeps(s, id, initial);
          Conservation(Step(s, Begin(id)), ops, initial);
        } else {
          NothingToLose(s, id, ops);
        }
      }
    }
  }
}
