// Canonical text against an independent notion of "the same JSON value".
module JsonMeaning {
  import opened Outcomes
  import opened Utf16
  import opened Json
  import opened JsonLaws

  // ---- Normal forms ----------------------------------------------------------------------------

  lemma {:induction false} NormalMembersAt(owner: Value, ms: seq<Member>, i: nat)
    requires forall m | m in ms :: m.value < owner
    requires i < |ms|
    ensures ms[i] in ms && NormalMembers(owner, ms)[i] == Member(ms[i].key, Normal(ms[i].value))
  {
    if i > 0 {
      NormalMembersAt(owner, ms[1..], i - 1);
    }
  }

  lemma {:induction false} NormalItemsAt(items: seq<Value>, i: nat)
    requires i < |items|
    ensures NormalItems(items)[i] == if items[i].Undefined? then Null else Normal(items[i])
  {
    if i > 0 {
      NormalItemsAt(items[1..], i - 1);
    }
  }

  /** A normal object is already in printing order. */
  lemma NormalOrdered(v: Value)
    requires v.Obj? && Valid(v)
    ensures Ordered(Normal(v).members) == Normal(v).members
    ensures Increasing(Normal(v).members)
  {
    var sorted := Ordered(v.members);
    OrderedIncreasing(v.members);
    NormalPresent(v, sorted);
    OrderedFixed(NormalMembers(v, sorted));
  }

  lemma NormalPresent(owner: Value, ms: seq<Member>)
    requires forall m | m in ms :: m.value < owner && !m.value.Undefined?
    ensures forall m | m in NormalMembers(owner, ms) :: !m.value.Undefined?
  {
    forall i | 0 <= i < |ms|
      ensures !NormalMembers(owner, ms)[i].value.Undefined?
    {
      NormalMembersAt(owner, ms, i);
    }
  }

  /** Printing the normal form prints the same text, so canonicalization is idempotent. */
  lemma {:induction false} NormalPrintsAlike(v: Value)
    requires Valid(v)
    ensures Canonicalize(Normal(v)) == Canonicalize(v)
    decreases v
  {
    match v
    case Arr(items) => ItemsPrintAlike(items);
    case Obj(ms) =>
      NormalOrdered(v);
      MembersPrintAlike(v, Ordered(ms), Normal(v));
    case _ =>
  }

  lemma {:induction false} ItemsPrintAlike(items: seq<Value>)
    requires forall x | x in items :: Valid(x)
    ensures PrintItems(NormalItems(items)) == PrintItems(items)
    decreases items
  {
    if items != [] {
      assert items[0] in items;
      if !items[0].Undefined? {
        NormalPrintsAlike(items[0]);
      }
      ItemsPrintAlike(items[1..]);
      assert NormalItems(items)[1..] == NormalItems(items[1..]);
    }
  }

  lemma {:induction false} MembersPrintAlike(owner: Value, ms: seq<Member>, owner': Value)
    requires forall m | m in ms :: m.value < owner && Valid(m.value)
    requires forall m | m in NormalMembers(owner, ms) :: m.value < owner'
    ensures PrintMembers(owner', NormalMembers(owner, ms)) == PrintMembers(owner, ms)
    decreases owner, |ms|
  {
    if ms != [] {
      assert ms[0] in ms;
      NormalPrintsAlike(ms[0].value);
      assert NormalMembers(owner, ms)[1..] == NormalMembers(owner, ms[1..]);
      MembersPrintAlike(owner, ms[1..], owner');
    }
  }

  /** The members of canonical text, as a parser reads them, stand in increasing order by code unit. */
  lemma CanonicalOrder(v: Value, i: nat, j: nat)
    requires v.Obj? && Valid(v) && Encodable(v)
    ensures Canonicalize(v).Some? && Parse(Canonicalize(v).value).Some? && Parse(Canonicalize(v).value).value.Obj?
    ensures var ms := Parse(Canonicalize(v).value).value.members;
            i < j < |ms| ==> Precedes(ms[i].key, ms[j].key)
  {
    RoundTrip(v);
    NormalOrdered(v);
    var ms := Normal(v).members;
    if i < j < |ms| {
      assert Before(ms[i].key, ms[j].key);
      BeforeIsPrecedes(ms[i].key, ms[j].key);
    }
  }

  // ---- Same value, same text -------------------------------------------------------------------

  ghost function Keys(ms: seq<Member>): (keys: set<Text>) {
    set m | m in ms :: m.key
  }

  lemma KeyIndex(ms: seq<Member>, key: Text) returns (i: nat)
    requires key in Keys(ms)
    ensures i < |ms| && ms[i].key == key
  {
    var m :| m in ms && m.key == key;
    i :| 0 <= i < |ms| && ms[i] == m;
  }

  lemma {:induction false} IncreasingTail(ms: seq<Member>)
    requires Increasing(ms) && ms != []
    ensures Keys(ms[1..]) == Keys(ms) - {ms[0].key}
  {
    assert ms == [ms[0]] + ms[1..];
    forall i | 0 <= i < |ms[1..]|
      ensures ms[1..][i].key != ms[0].key
    {
      assert Before(ms[0].key, ms[i + 1].key);
      BeforeIrreflexive(ms[0].key);
    }
  }

  lemma LeastKey(ms: seq<Member>, key: Text)
    requires Increasing(ms) && key in Keys(ms)
    ensures ms[0].key == key || Before(ms[0].key, key)
  {
    var i := KeyIndex(ms, key);
  }

  /** Two increasing member lists with the same keys list them in the same order. */
  lemma {:induction false} IncreasingUnique(a: seq<Member>, b: seq<Member>)
    requires Increasing(a) && Increasing(b) && Keys(a) == Keys(b)
    ensures |a| == |b| && forall i :: 0 <= i < |a| ==> a[i].key == b[i].key
  {
    assert a != [] ==> a[0].key in Keys(a);
    assert b != [] ==> b[0].key in Keys(b);
    if a != [] {
      LeastKey(a, b[0].key);
      LeastKey(b, a[0].key);
      if a[0].key != b[0].key {
        BeforeTransitive(a[0].key, b[0].key, a[0].key);
        BeforeIrreflexive(a[0].key);
      }
      IncreasingTail(a);
      IncreasingTail(b);
      IncreasingUnique(a[1..], b[1..]);
      forall i | 0 < i < |a|
        ensures a[i].key == b[i].key
      {
        assert a[i] == a[1..][i - 1] && b[i] == b[1..][i - 1];
      }
    }
  }

  lemma {:induction false} SameGivesNormal(a: Value, b: Value)
    requires Valid(a) && Valid(b) && SameJson(a, b)
    ensures Normal(a) == Normal(b)
    decreases a
  {
    match a
    case Arr(xs) =>
      var ys := b.items;
      forall i | 0 <= i < |xs|
        ensures NormalItems(xs)[i] == NormalItems(ys)[i]
      {
        NormalItemsAt(xs, i);
        NormalItemsAt(ys, i);
        assert xs[i] in xs && ys[i] in ys;
        if !(Nullish(xs[i]) && Nullish(ys[i])) {
          SameGivesNormal(xs[i], ys[i]);
        }
      }
      assert NormalItems(xs) == NormalItems(ys);
    case Obj(ms) =>
      SameObjects(a, b);
    case _ =>
  }

  lemma {:induction false} SameObjects(a: Value, b: Value)
    requires a.Obj? && Valid(a) && Valid(b) && SameJson(a, b)
    ensures Normal(a) == Normal(b)
    decreases a, 0
  {
    var xs, ys := Ordered(a.members), Ordered(b.members);
    OrderedIncreasing(a.members);
    OrderedIncreasing(b.members);
    assert Keys(xs) == PresentKeys(a.members) && Keys(ys) == PresentKeys(b.members);
    IncreasingUnique(xs, ys);
    forall i | 0 <= i < |xs|
      ensures NormalMembers(a, xs)[i] == NormalMembers(b, ys)[i]
    {
      NormalMembersAt(a, xs, i);
      NormalMembersAt(b, ys, i);
      LookupFinds(b.members, ys[i]);
      SameGivesNormal(xs[i].value, ys[i].value);
    }
    assert NormalMembers(a, xs) == NormalMembers(b, ys);
  }

  lemma {:induction false} NormalGivesSame(a: Value, b: Value)
    requires Valid(a) && Valid(b) && Normal(a) == Normal(b)
    ensures SameJson(a, b)
    decreases a
  {
    match a
    case Arr(xs) =>
      var ys := b.items;
      forall i | 0 <= i < |xs|
        ensures (Nullish(xs[i]) && Nullish(ys[i])) || SameJson(xs[i], ys[i])
      {
        NormalItemsAt(xs, i);
        NormalItemsAt(ys, i);
        assert xs[i] in xs && ys[i] in ys;
        if !Nullish(xs[i]) || !Nullish(ys[i]) {
          NormalNull(xs[i]);
          NormalNull(ys[i]);
          NormalGivesSame(xs[i], ys[i]);
        }
      }
    case Obj(_) => NormalObjects(a, b);
    case _ =>
  }

  lemma NormalNull(v: Value)
    ensures Normal(v).Null? <==> v.Null?
    ensures Normal(v).Undefined? <==> v.Undefined?
  {
  }

  lemma KeysByIndex(xs: seq<Member>, ys: seq<Member>)
    requires |xs| == |ys| && forall i :: 0 <= i < |xs| ==> xs[i].key == ys[i].key
    ensures Keys(xs) == Keys(ys)
  {
    forall i | 0 <= i < |xs|
      ensures xs[i].key in Keys(ys) && ys[i].key in Keys(xs)
    {
      assert xs[i] in xs && ys[i] in ys;
    }
  }

  lemma {:induction false} NormalObjects(a: Value, b: Value)
    requires a.Obj? && Valid(a) && Valid(b) && Normal(a) == Normal(b)
    ensures SameJson(a, b)
    decreases a, 0
  {
    var xs, ys := Ordered(a.members), Ordered(b.members);
    assert NormalMembers(a, xs) == NormalMembers(b, ys);
    forall i | 0 <= i < |xs|
      ensures xs[i].key == ys[i].key && SameJson(xs[i].value, ys[i].value)
    {
      NormalMembersAt(a, xs, i);
      NormalMembersAt(b, ys, i);
      NormalGivesSame(xs[i].value, ys[i].value);
    }
    SameByIndex(a, b);
  }

  lemma SameByIndex(a: Value, b: Value)
    requires a.Obj? && b.Obj? && DistinctKeys(b.members)
    requires |Ordered(a.members)| == |Ordered(b.members)|
    requires forall i :: 0 <= i < |Ordered(a.members)| ==>
      && Ordered(a.members)[i].key == Ordered(b.members)[i].key
      && SameJson(Ordered(a.members)[i].value, Ordered(b.members)[i].value)
    ensures SameJson(a, b)
  {
    var xs, ys := Ordered(a.members), Ordered(b.members);
    KeysByIndex(xs, ys);
    assert Keys(xs) == PresentKeys(a.members) && Keys(ys) == PresentKeys(b.members);
    forall m | m in a.members && !m.value.Undefined?
      ensures SameJson(m.value, Lookup(b.members, m.key))
    {
      var i :| 0 <= i < |xs| && xs[i] == m;
      assert ys[i] in ys;
      LookupFinds(b.members, ys[i]);
    }
  }

  /**
   * Two values print to the same text exactly when they are the same JSON value. Insertion order
   * and undefined members never show; every other difference does.
   */
  lemma SameTextIffSame(a: Value, b: Value)
    requires Valid(a) && Valid(b) && Encodable(a) && Encodable(b)
    ensures Canonicalize(a) == Canonicalize(b) <==> SameJson(a, b)
  {
    if Canonicalize(a) == Canonicalize(b) {
      RoundTrip(a);
      RoundTrip(b);
      NormalGivesSame(a, b);
    }
    if SameJson(a, b) {
      SameGivesNormal(a, b);
      NormalPrintsAlike(a);
      NormalPrintsAlike(b);
    }
  }

  /** Reading a member of the parsed text reads that member of the value that was printed. */
  lemma NormalGet(v: Value, key: Text)
    requires Valid(v)
    ensures Get(Normal(v), key) == Normal(Get(v, key))
  {
    if v.Obj? {
      var sorted := Ordered(v.members);
      var ms := Normal(v).members;
      NormalOrdered(v);
      IncreasingDistinct(ms);
      var x := Get(v, key);
      if x.Undefined? {
        if !Lookup(ms, key).Undefined? {
          var i :| 0 <= i < |ms| && ms[i] == Member(key, Lookup(ms, key));
          NormalMembersAt(v, sorted, i);
          LookupFinds(v.members, sorted[i]);
          assert false;
        }
      } else {
        assert Member(key, x) in sorted;
        var i :| 0 <= i < |sorted| && sorted[i] == Member(key, x);
        NormalMembersAt(v, sorted, i);
        LookupFinds(ms, ms[i]);
      }
    }
  }

  lemma ValidGet(v: Value, key: Text)
    requires Valid(v)
    ensures Valid(Get(v, key))
  {
    if v.Obj? && !Get(v, key).Undefined? {
      assert Member(key, Get(v, key)) in v.members;
    }
  }

  lemma {:induction false} LookupFinds(ms: seq<Member>, m: Member)
    requires DistinctKeys(ms) && m in ms
    ensures Lookup(ms, m.key) == m.value
  {
    if ms[0] != m {
      assert m in ms[1..];
      KeyUniqueTail(ms, m);
      LookupFinds(ms[1..], m);
    }
  }

  lemma KeyUniqueTail(ms: seq<Member>, m: Member)
    requires ms != [] && DistinctKeys(ms) && m in ms[1..]
    ensures ms[0].key != m.key
  {
    var j :| 0 <= j < |ms[1..]| && ms[1..][j] == m;
    assert ms[0].key != ms[j + 1].key;
  }
}
