/** The `GprReactor` cyclus archetype: three first-in-first-out buffers of
    fuel assemblies (core, fresh and spent), a cycle counter with a
    discharged flag, the trades that fill and empty the buffers, and the
    number of assemblies it orders.

    An assembly is its material object id. Transmuting an assembly to its
    spent-fuel recipe is recorded as membership in `transmuted`; the recipes
    themselves, the records written to the cyclus database and the bid and
    request portfolios are not modelled. */
module Gpr {
  import opened Wrappers

  const NoOutcommodMsg: string := "misoenrichment::GprReactor - no outcommod for material object"
  const NoOutrecipeMsg: string := "misoenrichment::GprReactor - no outrecipe for material object"
  const UnsupportedIncommodMsg: string := "misoenrichment::GprReactor - received unsupported incommod material."

  /** cyclus' default request preference. */
  const DefaultPref: real := 1.0

  function Min(a: int, b: int): int {
    if a < b then a else b
  }

  function Max(a: int, b: int): int {
    if a < b then b else a
  }

  /** `std::ceil(a / b)` of two integers, for a positive divisor. */
  function CeilDiv(a: int, b: int): (q: int)
    requires b > 0
    ensures b * (q - 1) < a <= b * q
  {
    -((-a) / b)
  }

  /** `GetMatlRequests`' count of the cycles left: the time left after the
      current cycle, in whole cycles, rounded up. */
  function CyclesLeft(timeLeft: int, timeLeftCycle: int, period: int): (n: int)
    requires period > 0
    ensures period * (n - 1) < timeLeft - timeLeftCycle <= period * n
  {
    CeilDiv(timeLeft - timeLeftCycle, period)
  }

  // ---------------------------------------------------------------------------
  // Commodity and recipe lookup through `res_indexes`

  /** `res_indexes[id]`: `std::map::operator[]` reads a missing id as 0.
      The source's `operator[]` also inserts the missing id with index 0;
      the lookups agree, but after `PopSpent_`, `Transmute_` or
      `GetMatlTrades` the source's key set can hold such extra ids, which
      this map does not. */
  function IndexOf(index: map<int, nat>, id: int): nat {
    if id in index then index[id] else 0
  }

  /** The name at the assembly's index in `names`, if there is one: what
      `OutCommod_` (with the out-commodities) and `OutRecipe_` (with the
      out-recipes) return instead of throwing a KeyError. */
  function NameOf(names: seq<string>, index: map<int, nat>, id: int): Option<string> {
    var i := IndexOf(index, id);
    if i < |names| then Some(names[i]) else None
  }

  predicate AllNamed(ids: seq<int>, names: seq<string>, index: map<int, nat>) {
    forall i :: 0 <= i < |ids| ==> NameOf(names, index, ids[i]).Some?
  }

  /** Position of the first assembly without a name, or `|ids|`. */
  function FirstUnnamed(ids: seq<int>, names: seq<string>, index: map<int, nat>): (k: nat)
    ensures k <= |ids|
    ensures forall i :: 0 <= i < k ==> NameOf(names, index, ids[i]).Some?
    ensures k < |ids| ==> NameOf(names, index, ids[k]).None?
  {
    if ids == [] then 0
    else if NameOf(names, index, ids[0]).None? then 0
    else 1 + FirstUnnamed(ids[1..], names, index)
  }

  /** The assemblies of `ids` whose commodity is `c`, in buffer order. */
  function Filter(ids: seq<int>, names: seq<string>, index: map<int, nat>, c: string): seq<int> {
    if ids == [] then []
    else
      Filter(ids[..|ids| - 1], names, index, c) +
      (if NameOf(names, index, ids[|ids| - 1]) == Some(c) then [ids[|ids| - 1]] else [])
  }

  /** The entry of a grouping, empty when the key is absent (as
      `operator[]` creates it). */
  function Get(m: map<string, seq<int>>, c: string): seq<int> {
    if c in m then m[c] else []
  }

  /** `PeekSpent_`'s grouping of a buffer by commodity, each list in buffer
      order; `None` when some assembly has no commodity. */
  function Group(ids: seq<int>, names: seq<string>, index: map<int, nat>): (g: Option<map<string, seq<int>>>)
    ensures g.Some? <==> AllNamed(ids, names, index)
    ensures g.Some? ==> forall c :: Get(g.value, c) == Filter(ids, names, index, c)
    ensures g.Some? ==> forall c :: c in g.value ==> g.value[c] != []
  {
    if ids == [] then Some(map[])
    else
      var init := ids[..|ids| - 1];
      var last := ids[|ids| - 1];
      AllNamedSnoc(ids, names, index);
      match Group(init, names, index)
      case None => None
      case Some(m) =>
        match NameOf(names, index, last)
        case None => None
        case Some(c) => Some(m[c := Get(m, c) + [last]])
  }

  lemma AllNamedSnoc(ids: seq<int>, names: seq<string>, index: map<int, nat>)
    requires ids != []
    ensures AllNamed(ids, names, index) <==>
            AllNamed(ids[..|ids| - 1], names, index) && NameOf(names, index, ids[|ids| - 1]).Some?
  {
    assert forall i :: 0 <= i < |ids| - 1 ==> ids[..|ids| - 1][i] == ids[i];
  }

  /** `std::reverse`. */
  function Reverse(s: seq<int>): (r: seq<int>)
    ensures |r| == |s|
    ensures forall i :: 0 <= i < |s| ==> r[i] == s[|s| - 1 - i]
  {
    if s == [] then [] else [s[|s| - 1]] + Reverse(s[..|s| - 1])
  }

  lemma ReverseReverse(s: seq<int>)
    ensures Reverse(Reverse(s)) == s
  {
  }

  /** Dropping the back of a reversed list reverses the list without its
      front. */
  lemma {:induction false} ReverseDropFirst(s: seq<int>)
    requires s != []
    ensures Reverse(s)[..|s| - 1] == Reverse(s[1..])
  {
    var r, t := Reverse(s), s[1..];
    var rt := Reverse(t);
    assert |r[..|s| - 1]| == |rt|;
    forall i | 0 <= i < |rt|
      ensures r[..|s| - 1][i] == rt[i]
    {
      assert rt[i] == t[|t| - 1 - i] == s[|s| - 1 - i];
      assert r[i] == s[|s| - 1 - i];
    }
  }

  /** Every list of a grouping reversed, as `PopSpent_` returns it. */
  function ReverseAll(m: map<string, seq<int>>): (r: map<string, seq<int>>)
  {
    map c | c in m :: Reverse(m[c])
  }

  /** `std::string`'s `operator<`: the first differing character decides,
      and a proper prefix comes before the longer string. */
  predicate StrLess(a: string, b: string)
    decreases |a|
  {
    if |b| == 0 then false
    else if |a| == 0 then true
    else a[0] < b[0] || (a[0] == b[0] && StrLess(a[1..], b[1..]))
  }

  /** No string comes before itself. */
  lemma {:induction false} StrLessIrreflexive(a: string)
    ensures !StrLess(a, a)
    decreases |a|
  {
    if |a| > 0 {
      StrLessIrreflexive(a[1..]);
    }
  }

  lemma {:induction false} StrLessTransitive(a: string, b: string, c: string)
    requires StrLess(a, b) && StrLess(b, c)
    ensures StrLess(a, c)
    decreases |a|
  {
    if |a| > 0 && a[0] == b[0] && b[0] == c[0] {
      StrLessTransitive(a[1..], b[1..], c[1..]);
    }
  }

  /** Of two different strings one comes first. */
  lemma {:induction false} StrLessTotal(a: string, b: string)
    ensures a == b || StrLess(a, b) || StrLess(b, a)
    decreases |a|
  {
    if |a| > 0 && |b| > 0 && a[0] == b[0] {
      StrLessTotal(a[1..], b[1..]);
      if a[1..] == b[1..] {
        assert a == [a[0]] + a[1..] && b == [b[0]] + b[1..];
      }
    }
  }

  /** `c` is the first of `keys` in `std::string` order. */
  predicate IsLeast(c: string, keys: set<string>) {
    c in keys && forall d :: d in keys && d != c ==> StrLess(c, d)
  }

  /** Every non-empty set of strings has a first element. */
  lemma {:induction false} LeastExists(keys: set<string>)
    requires keys != {}
    ensures exists c :: IsLeast(c, keys)
    decreases |keys|
  {
    var x :| x in keys;
    if keys != {x} {
      var rest := keys - {x};
      assert |rest| < |keys|;
      LeastExists(rest);
      var y :| IsLeast(y, rest);
      StrLessTotal(x, y);
      if StrLess(x, y) {
        forall d | d in keys && d != x
          ensures StrLess(x, d)
        {
          if d != y {
            StrLessTransitive(x, y, d);
          }
        }
        assert IsLeast(x, keys);
      } else {
        assert IsLeast(y, keys);
      }
    } else {
      assert IsLeast(x, keys);
    }
  }

  /** The first element is unique. */
  lemma LeastUnique(c: string, d: string, keys: set<string>)
    requires IsLeast(c, keys) && IsLeast(d, keys)
    ensures c == d
  {
    if c != d {
      StrLessTransitive(c, d, c);
      StrLessIrreflexive(c);
    }
  }

  /** The keys of a `std::map<std::string, _>` in the order its iterators
      visit them: the first key, then the others in order. */
  ghost function SortedKeys(keys: set<string>): (order: seq<string>)
    ensures forall i :: 0 <= i < |order| ==> order[i] in keys
    decreases |keys|
  {
    if keys == {} then []
    else
      LeastExists(keys);
      var c :| IsLeast(c, keys);
      assert |keys - {c}| < |keys|;
      [c] + SortedKeys(keys - {c})
  }

  /** `SortedKeys` lists every key once, in ascending order. */
  lemma SortedKeysOrder(keys: set<string>)
    ensures IsOrderOf(SortedKeys(keys), keys)
    ensures forall i, j :: 0 <= i < j < |SortedKeys(keys)| ==> StrLess(SortedKeys(keys)[i], SortedKeys(keys)[j])
  {
    var order := SortedKeys(keys);
    SortedKeysAscending(keys);
    SortedKeysCover(keys);
    forall i, j | 0 <= i < j < |order|
      ensures order[i] != order[j]
    {
      if order[i] == order[j] {
        StrLessIrreflexive(order[i]);
      }
    }
  }

  lemma SortedKeysUnfold(keys: set<string>)
    requires keys != {}
    ensures var order := SortedKeys(keys);
            |order| > 0 && IsLeast(order[0], keys) && order == [order[0]] + SortedKeys(keys - {order[0]})
  {
  }

  lemma {:induction false} SortedKeysCover(keys: set<string>)
    ensures forall d :: d in keys ==> d in SortedKeys(keys)
    decreases |keys|
  {
    if keys != {} {
      SortedKeysUnfold(keys);
      var c := SortedKeys(keys)[0];
      assert |keys - {c}| < |keys|;
      SortedKeysCover(keys - {c});
      forall d | d in keys
        ensures d in SortedKeys(keys)
      {
        if d != c {
          assert d in keys - {c};
        }
      }
    }
  }

  lemma {:induction false} SortedKeysAscending(keys: set<string>)
    ensures forall i, j :: 0 <= i < j < |SortedKeys(keys)| ==> StrLess(SortedKeys(keys)[i], SortedKeys(keys)[j])
    decreases |keys|
  {
    if keys != {} {
      SortedKeysUnfold(keys);
      var order := SortedKeys(keys);
      var c := order[0];
      var rest := SortedKeys(keys - {c});
      assert |keys - {c}| < |keys|;
      SortedKeysAscending(keys - {c});
      forall i, j | 0 <= i < j < |order|
        ensures StrLess(order[i], order[j])
      {
        assert order[j] == rest[j - 1] && order[j] in keys - {c};
        if i > 0 {
          assert order[i] == rest[i - 1];
        }
      }
    }
  }

  /** The first key is visited first, then the others in order. */
  lemma SortedKeysStep(keys: set<string>, c: string)
    requires IsLeast(c, keys)
    ensures SortedKeys(keys) == [c] + SortedKeys(keys - {c})
  {
    var order := SortedKeys(keys);
    assert IsLeast(order[0], keys) && order == [order[0]] + SortedKeys(keys - {order[0]});
    LeastUnique(order[0], c, keys);
  }

  /** `order` lists the keys of a map, each once. */
  predicate IsOrderOf(order: seq<string>, keys: set<string>) {
    (forall i, j :: 0 <= i < j < |order| ==> order[i] != order[j]) &&
    (forall i :: 0 <= i < |order| ==> order[i] in keys) &&
    (forall c :: c in keys ==> c in order)
  }

  /** What `PushSpent_` appends when it visits the keys in `order`: each
      list reversed, one after the other. */
  function Flatten(order: seq<string>, m: map<string, seq<int>>): seq<int>
    requires forall i :: 0 <= i < |order| ==> order[i] in m
  {
    if order == [] then []
    else Flatten(order[..|order| - 1], m) + Reverse(m[order[|order| - 1]])
  }

  /** Every list of `m` holds only assemblies of its own commodity. */
  predicate Consistent(m: map<string, seq<int>>, names: seq<string>, index: map<int, nat>) {
    forall c, i :: c in m && 0 <= i < |m[c]| ==> NameOf(names, index, m[c][i]) == Some(c)
  }

  lemma {:induction false} FilterAppend(a: seq<int>, b: seq<int>, names: seq<string>, index: map<int, nat>, c: string)
    ensures Filter(a + b, names, index, c) == Filter(a, names, index, c) + Filter(b, names, index, c)
    decreases |b|
  {
    if b == [] {
      assert a + b == a;
    } else {
      var b' := b[..|b| - 1];
      assert (a + b)[..|a + b| - 1] == a + b';
      FilterAppend(a, b', names, index, c);
    }
  }

  /** The filtered assemblies are assemblies of the buffer with that commodity. */
  lemma {:induction false} FilterMembers(ids: seq<int>, names: seq<string>, index: map<int, nat>, c: string)
    ensures forall x :: x in Filter(ids, names, index, c) ==> x in ids && NameOf(names, index, x) == Some(c)
  {
    if ids != [] {
      FilterMembers(ids[..|ids| - 1], names, index, c);
    }
  }

  /** A list of assemblies all of commodity `d` filters to itself for `d`
      and to nothing for any other commodity. */
  lemma {:induction false} FilterUniform(s: seq<int>, names: seq<string>, index: map<int, nat>, d: string, c: string)
    requires forall i :: 0 <= i < |s| ==> NameOf(names, index, s[i]) == Some(d)
    ensures Filter(s, names, index, c) == if c == d then s else []
  {
    if s != [] {
      FilterUniform(s[..|s| - 1], names, index, d, c);
      assert s[..|s| - 1] + [s[|s| - 1]] == s;
    }
  }

  /** Filtering what `PushSpent_` appends for a consistent grouping gives
      back the (reversed) list of that commodity. */
  lemma {:induction false} FilterFlatten(order: seq<string>, m: map<string, seq<int>>,
                                         names: seq<string>, index: map<int, nat>, c: string)
    requires forall i :: 0 <= i < |order| ==> order[i] in m
    requires forall i, j :: 0 <= i < j < |order| ==> order[i] != order[j]
    requires Consistent(m, names, index)
    ensures Filter(Flatten(order, m), names, index, c) == if c in order then Reverse(m[c]) else []
  {
    if order != [] {
      var init := order[..|order| - 1];
      var d := order[|order| - 1];
      FilterFlatten(init, m, names, index, c);
      FilterAppend(Flatten(init, m), Reverse(m[d]), names, index, c);
      FilterUniform(Reverse(m[d]), names, index, d, c);
      assert c in order <==> c in init || c == d;
      if c == d {
        assert c !in init;
      }
    }
  }

  /** An assembly occurs in a buffer as often as in the buffer's list for
      its commodity. */
  lemma {:induction false} CountThroughFilter(s: seq<int>, names: seq<string>, index: map<int, nat>, x: int, c: string)
    requires NameOf(names, index, x) == Some(c)
    ensures multiset(s)[x] == multiset(Filter(s, names, index, c))[x]
  {
    if s != [] {
      var init := s[..|s| - 1];
      CountThroughFilter(init, names, index, x, c);
      assert s == init + [s[|s| - 1]];
    }
  }

  /** Two buffers with the same list for every commodity, and no assembly
      without a commodity, hold the same assemblies. */
  lemma SameFiltersSameMultiset(a: seq<int>, b: seq<int>, names: seq<string>, index: map<int, nat>)
    requires AllNamed(a, names, index) && AllNamed(b, names, index)
    requires forall c :: Filter(a, names, index, c) == Filter(b, names, index, c)
    ensures multiset(a) == multiset(b)
  {
    forall x
      ensures multiset(a)[x] == multiset(b)[x]
    {
      match NameOf(names, index, x)
      case Some(c) =>
        CountThroughFilter(a, names, index, x, c);
        CountThroughFilter(b, names, index, x, c);
      case None =>
        assert x !in a && x !in b;
    }
  }

  /** `PopSpent_` followed by `PushSpent_`, whatever order the keys are
      visited in, keeps every commodity's assemblies in their order and
      the buffer's assemblies as they were. */
  lemma PopPushRoundTrip(ids: seq<int>, names: seq<string>, index: map<int, nat>, order: seq<string>)
    requires AllNamed(ids, names, index)
    requires IsOrderOf(order, Group(ids, names, index).value.Keys)
    ensures var pushed := Flatten(order, ReverseAll(Group(ids, names, index).value));
            (forall c :: Filter(pushed, names, index, c) == Filter(ids, names, index, c)) &&
            multiset(pushed) == multiset(ids)
  {
    var g := Group(ids, names, index).value;
    var m := ReverseAll(g);
    var pushed := Flatten(order, m);
    forall c, i | c in m && 0 <= i < |m[c]|
      ensures NameOf(names, index, m[c][i]) == Some(c)
    {
      FilterMembers(ids, names, index, c);
      assert m[c][i] in g[c];
    }
    forall c
      ensures Filter(pushed, names, index, c) == Filter(ids, names, index, c)
    {
      FilterFlatten(order, m, names, index, c);
      if c in order {
        ReverseReverse(g[c]);
      }
    }
    forall i | 0 <= i < |pushed|
      ensures NameOf(names, index, pushed[i]).Some?
    {
      var x := pushed[i];
      if NameOf(names, index, x).None? {
        FlattenMembers(order, m, x);
        assert false;
      }
    }
    SameFiltersSameMultiset(pushed, ids, names, index);
  }

  lemma {:induction false} FlattenMembers(order: seq<string>, m: map<string, seq<int>>, x: int)
    requires forall i :: 0 <= i < |order| ==> order[i] in m
    ensures x in Flatten(order, m) ==> exists c :: c in m && x in m[c]
  {
    if order != [] {
      var init := order[..|order| - 1];
      FlattenMembers(init, m, x);
      var d := order[|order| - 1];
      if x in Reverse(m[d]) {
        var i :| 0 <= i < |m[d]| && Reverse(m[d])[i] == x;
        assert m[d][|m[d]| - 1 - i] == x;
      }
    }
  }

  // ---------------------------------------------------------------------------
  // Serving trades from the spent buffer

  /** How many of the first `k` trades are for commodity `c`. */
  function Taken(trades: seq<string>, k: nat, c: string): (n: nat)
    requires k <= |trades|
    ensures n <= k
  {
    if k == 0 then 0 else Taken(trades, k - 1, c) + (if trades[k - 1] == c then 1 else 0)
  }

  /** The count of a commodity's trades only grows along the trades. */
  lemma {:induction false} TakenGrows(trades: seq<string>, j: nat, k: nat, c: string)
    requires j <= k <= |trades|
    ensures Taken(trades, j, c) <= Taken(trades, k, c)
    decreases k - j
  {
    if j < k {
      TakenGrows(trades, j, k - 1, c);
    }
  }

  /** Every commodity has at least as many assemblies in the grouping as
      there are trades of it, at every point of the trades. */
  ghost predicate Serviceable(g: map<string, seq<int>>, trades: seq<string>) {
    forall k, c :: 0 <= k <= |trades| ==> Taken(trades, k, c) <= |Get(g, c)|
  }

  /** Enough assemblies for all the trades are enough along the way. */
  lemma ServiceableAlong(g: map<string, seq<int>>, trades: seq<string>)
    requires forall c :: Taken(trades, |trades|, c) <= |Get(g, c)|
    ensures Serviceable(g, trades)
  {
    forall k, c | 0 <= k <= |trades|
      ensures Taken(trades, k, c) <= |Get(g, c)|
    {
      TakenGrows(trades, k, |trades|, c);
    }
  }

  /** The assemblies `GetMatlTrades` hands out for the first `k` trades,
      in trade order: each trade takes the next assembly of its
      commodity's list. */
  function Served(g: map<string, seq<int>>, trades: seq<string>, k: nat): (s: seq<int>)
    requires k <= |trades| && Serviceable(g, trades)
    ensures |s| == k
  {
    if k == 0 then []
    else
      var t := trades[k - 1];
      assert Taken(trades, k, t) <= |Get(g, t)|;
      Served(g, trades, k - 1) + [Get(g, t)[Taken(trades, k - 1, t)]]
  }

  /** Each trade receives the oldest assembly of its commodity that no
      earlier trade has taken. */
  lemma {:induction false} ServedOldestFirst(g: map<string, seq<int>>, trades: seq<string>, k: nat)
    requires k <= |trades| && Serviceable(g, trades)
    ensures forall i {:trigger Served(g, trades, k)[i]} :: 0 <= i < k ==>
              Taken(trades, i, trades[i]) < |Get(g, trades[i])| &&
              Served(g, trades, k)[i] == Get(g, trades[i])[Taken(trades, i, trades[i])]
  {
    if k > 0 {
      ServedOldestFirst(g, trades, k - 1);
      var t := trades[k - 1];
      assert Taken(trades, k, t) <= |Get(g, t)|;
      var prev := Served(g, trades, k - 1);
      var s := Served(g, trades, k);
      assert s == prev + [Get(g, t)[Taken(trades, k - 1, t)]];
      forall i | 0 <= i < k
        ensures Taken(trades, i, trades[i]) < |Get(g, trades[i])| &&
                s[i] == Get(g, trades[i])[Taken(trades, i, trades[i])]
      {
        if i < k - 1 {
          assert s[i] == prev[i];
        }
      }
    }
  }

  /** What is left of `g[c]` after the first `k` trades, reversed as the
      serving loop holds it. */
  function LeftOf(g: map<string, seq<int>>, trades: seq<string>, k: nat, c: string): seq<int>
    requires k <= |trades| && Serviceable(g, trades) && c in g
  {
    assert Taken(trades, k, c) <= |Get(g, c)|;
    Reverse(g[c][Taken(trades, k, c)..])
  }

  /** The lists the serving loop holds after the first `k` trades. */
  function RemainingAt(g: map<string, seq<int>>, trades: seq<string>, k: nat): (m: map<string, seq<int>>)
    requires k <= |trades| && Serviceable(g, trades)
    ensures m.Keys == g.Keys
  {
    map c | c in g :: LeftOf(g, trades, k, c)
  }

  /** The map `GetMatlTrades` pushes back once all trades are served. */
  function Remaining(g: map<string, seq<int>>, trades: seq<string>): (m: map<string, seq<int>>)
    requires Serviceable(g, trades)
    ensures m.Keys == g.Keys
  {
    RemainingAt(g, trades, |trades|)
  }

  /** Serving trade `i` pops the back of its commodity's reversed list,
      which is the assembly it receives, and leaves every other list alone. */
  lemma {:induction false} ServeStep(g: map<string, seq<int>>, trades: seq<string>, i: nat, d: string)
    requires i < |trades| && Serviceable(g, trades) && d in g
    ensures var before := LeftOf(g, trades, i, d);
            d == trades[i] ==> before != [] && before[|before| - 1] == Served(g, trades, i + 1)[i]
    ensures var before := LeftOf(g, trades, i, d);
            LeftOf(g, trades, i + 1, d) ==
              if d == trades[i] then before[..|before| - 1] else before
  {
    var n := Taken(trades, i, d);
    assert Taken(trades, i + 1, d) <= |Get(g, d)|;
    if d == trades[i] {
      var x := g[d][n..];
      ReverseDropFirst(x);
      assert x[1..] == g[d][n + 1..];
    }
  }

  /** Serving trade `i` on the whole map of lists. */
  lemma {:induction false} ServeStepMap(g: map<string, seq<int>>, trades: seq<string>, i: nat)
    requires i < |trades| && Serviceable(g, trades)
    ensures var left, c := RemainingAt(g, trades, i), trades[i];
            c in left && left[c] != [] && left[c][|left[c]| - 1] == Served(g, trades, i + 1)[i] &&
            RemainingAt(g, trades, i + 1) == left[c := left[c][..|left[c]| - 1]]
  {
    var left, next, c := RemainingAt(g, trades, i), RemainingAt(g, trades, i + 1), trades[i];
    assert Taken(trades, i + 1, c) <= |Get(g, c)|;
    ServeStepAt(g, trades, i, c);
    forall d | d in left
      ensures next[d] == if d == c then left[c][..|left[c]| - 1] else left[d]
    {
      ServeStepAt(g, trades, i, d);
    }
    PopEntry(left, next, c);
  }

  /** `ServeStep` read through the maps the serving loop holds. */
  lemma ServeStepAt(g: map<string, seq<int>>, trades: seq<string>, i: nat, d: string)
    requires i < |trades| && Serviceable(g, trades) && d in g
    ensures var left := RemainingAt(g, trades, i)[d];
            d == trades[i] ==> left != [] && left[|left| - 1] == Served(g, trades, i + 1)[i]
    ensures var left := RemainingAt(g, trades, i)[d];
            RemainingAt(g, trades, i + 1)[d] == if d == trades[i] then left[..|left| - 1] else left
  {
    ServeStep(g, trades, i, d);
  }

  /** A map that agrees with `left` except for the back of `c`'s list
      dropped is `left` with that entry updated. */
  lemma PopEntry(left: map<string, seq<int>>, next: map<string, seq<int>>, c: string)
    requires c in left && left[c] != [] && next.Keys == left.Keys
    requires forall d | d in left :: next[d] == if d == c then left[c][..|left[c]| - 1] else left[d]
    ensures next == left[c := left[c][..|left[c]| - 1]]
  {
  }

  /** The assemblies of commodity `c` served by the first `k` trades are
      the first ones of `c`'s list, in order. */
  lemma {:induction false} FilterServed(g: map<string, seq<int>>, names: seq<string>, index: map<int, nat>,
                                        trades: seq<string>, k: nat, c: string)
    requires Consistent(g, names, index) && k <= |trades| && Serviceable(g, trades)
    ensures Taken(trades, k, c) <= |Get(g, c)|
    ensures Filter(Served(g, trades, k), names, index, c) == Get(g, c)[..Taken(trades, k, c)]
  {
    if k > 0 {
      FilterServed(g, names, index, trades, k - 1, c);
      FilterServedStep(g, names, index, trades, k, c);
    }
  }

  /** The induction step of `FilterServed`: the `k`-th trade extends the
      served prefix of its own commodity and no other. */
  lemma FilterServedStep(g: map<string, seq<int>>, names: seq<string>, index: map<int, nat>,
                         trades: seq<string>, k: nat, c: string)
    requires Consistent(g, names, index) && 0 < k <= |trades| && Serviceable(g, trades)
    requires Filter(Served(g, trades, k - 1), names, index, c) == Get(g, c)[..Taken(trades, k - 1, c)]
    ensures Filter(Served(g, trades, k), names, index, c) == Get(g, c)[..Taken(trades, k, c)]
  {
    var t := trades[k - 1];
    ServedLast(g, trades, k);
    var x := Get(g, t)[Taken(trades, k - 1, t)];
    ConsistentAt(g, names, index, t, Taken(trades, k - 1, t));
    assert Taken(trades, k, c) <= |Get(g, c)|;
    FilterExtend(Served(g, trades, k - 1), x, names, index, c, Get(g, c),
                 Taken(trades, k - 1, c), Taken(trades, k, c));
  }

  /** The `k`-th trade is served the next assembly of its commodity. */
  lemma ServedLast(g: map<string, seq<int>>, trades: seq<string>, k: nat)
    requires 0 < k <= |trades| && Serviceable(g, trades)
    ensures var t := trades[k - 1];
            Taken(trades, k - 1, t) < |Get(g, t)| &&
            Served(g, trades, k) == Served(g, trades, k - 1) + [Get(g, t)[Taken(trades, k - 1, t)]]
  {
    assert Taken(trades, k, trades[k - 1]) <= |Get(g, trades[k - 1])|;
  }

  /** Every entry of a consistent grouping carries its key's name. */
  lemma ConsistentAt(g: map<string, seq<int>>, names: seq<string>, index: map<int, nat>, c: string, i: nat)
    requires Consistent(g, names, index) && i < |Get(g, c)|
    ensures NameOf(names, index, Get(g, c)[i]) == Some(c)
  {
  }

  /** Extending a buffer whose filter is a prefix of `f` extends the
      prefix by one exactly when the new assembly is the next one of `f`. */
  lemma FilterExtend(s: seq<int>, x: int, names: seq<string>, index: map<int, nat>, c: string,
                     f: seq<int>, m: nat, m': nat)
    requires m <= |f| && m' <= |f| && Filter(s, names, index, c) == f[..m]
    requires NameOf(names, index, x) == Some(c) ==> m < |f| && x == f[m] && m' == m + 1
    requires NameOf(names, index, x) != Some(c) ==> m' == m
    ensures Filter(s + [x], names, index, c) == f[..m']
  {
    FilterSnoc(s, x, names, index, c);
    if NameOf(names, index, x) == Some(c) {
      PrefixStep(f, m);
    }
  }

  lemma FilterSnoc(s: seq<int>, x: int, names: seq<string>, index: map<int, nat>, c: string)
    ensures Filter(s + [x], names, index, c) ==
            Filter(s, names, index, c) + if NameOf(names, index, x) == Some(c) then [x] else []
  {
    assert (s + [x])[..|s|] == s;
  }

  lemma PrefixStep(f: seq<int>, n: nat)
    requires n < |f|
    ensures f[..n] + [f[n]] == f[..n + 1]
  {
  }

  /** Every list left after serving holds only assemblies of its own
      commodity. */
  lemma {:induction false} RemainingConsistent(g: map<string, seq<int>>, names: seq<string>, index: map<int, nat>,
                                               trades: seq<string>)
    requires Consistent(g, names, index) && Serviceable(g, trades)
    ensures Consistent(Remaining(g, trades), names, index)
  {
    var m := Remaining(g, trades);
    forall c, i | c in m && 0 <= i < |m[c]|
      ensures NameOf(names, index, m[c][i]) == Some(c)
    {
      assert m[c] == LeftOf(g, trades, |trades|, c);
      LeftOfConsistent(g, names, index, trades, c, i);
    }
  }

  lemma LeftOfConsistent(g: map<string, seq<int>>, names: seq<string>, index: map<int, nat>,
                         trades: seq<string>, c: string, i: int)
    requires Consistent(g, names, index) && Serviceable(g, trades) && c in g
    requires 0 <= i < |LeftOf(g, trades, |trades|, c)|
    ensures NameOf(names, index, LeftOf(g, trades, |trades|, c)[i]) == Some(c)
  {
    var n := Taken(trades, |trades|, c);
    assert n <= |Get(g, c)|;
    var rest := g[c][n..];
    assert LeftOf(g, trades, |trades|, c)[i] == rest[|rest| - 1 - i];
    assert rest[|rest| - 1 - i] == g[c][n + |rest| - 1 - i];
  }

  /** `GetMatlTrades` loses and duplicates no assembly: what is pushed back
      keeps, for each commodity, the assemblies no trade took, in buffer
      order, and together with the served assemblies it is the old spent
      buffer. */
  lemma {:induction false} ServeConserves(spent: seq<int>, names: seq<string>, index: map<int, nat>,
                       trades: seq<string>, order: seq<string>)
    requires AllNamed(spent, names, index)
    requires Serviceable(Group(spent, names, index).value, trades)
    requires IsOrderOf(order, Group(spent, names, index).value.Keys)
    ensures var g := Group(spent, names, index).value;
            var pushed := Flatten(order, Remaining(g, trades));
            (forall c :: Taken(trades, |trades|, c) <= |Filter(spent, names, index, c)| &&
                         Filter(pushed, names, index, c) ==
                           Filter(spent, names, index, c)[Taken(trades, |trades|, c)..]) &&
            multiset(pushed) + multiset(Served(g, trades, |trades|)) == multiset(spent)
  {
    var g := Group(spent, names, index).value;
    GroupConsistent(spent, names, index);
    var pushed := Flatten(order, Remaining(g, trades));
    var served := Served(g, trades, |trades|);
    forall c
      ensures Taken(trades, |trades|, c) <= |Filter(spent, names, index, c)| &&
              Filter(pushed, names, index, c) == Filter(spent, names, index, c)[Taken(trades, |trades|, c)..]
    {
      LeftInOrder(g, names, index, trades, order, c);
    }
    ServeConservesCount(g, spent, names, index, trades, order);
  }

  /** Every assembly's count is kept, so the buffers' multisets add up. */
  lemma ServeConservesCount(g: map<string, seq<int>>, spent: seq<int>, names: seq<string>,
                            index: map<int, nat>, trades: seq<string>, order: seq<string>)
    requires AllNamed(spent, names, index) && Consistent(g, names, index)
    requires forall c :: Get(g, c) == Filter(spent, names, index, c)
    requires Serviceable(g, trades) && IsOrderOf(order, g.Keys)
    ensures multiset(Flatten(order, Remaining(g, trades))) + multiset(Served(g, trades, |trades|)) == multiset(spent)
  {
    var a, b, c := multiset(Flatten(order, Remaining(g, trades))), multiset(Served(g, trades, |trades|)), multiset(spent);
    forall x
      ensures a[x] + b[x] == c[x]
    {
      ServeConservesOne(g, spent, names, index, trades, order, x);
    }
    AddPointwise(a, b, c);
  }

  lemma AddPointwise(a: multiset<int>, b: multiset<int>, c: multiset<int>)
    requires forall x :: a[x] + b[x] == c[x]
    ensures a + b == c
  {
    assert forall x :: (a + b)[x] == c[x];
  }

  /** A grouping's lists hold only assemblies of their own commodity. */
  lemma GroupConsistent(ids: seq<int>, names: seq<string>, index: map<int, nat>)
    requires AllNamed(ids, names, index)
    ensures Consistent(Group(ids, names, index).value, names, index)
  {
    var g := Group(ids, names, index).value;
    forall c, i | c in g && 0 <= i < |g[c]|
      ensures NameOf(names, index, g[c][i]) == Some(c)
    {
      FilterMembers(ids, names, index, c);
      assert g[c][i] in Get(g, c);
    }
  }

  /** After serving, the buffer holds for each commodity the assemblies of
      its list that were not served, in their order. */
  lemma {:induction false} LeftInOrder(g: map<string, seq<int>>, names: seq<string>, index: map<int, nat>,
                                       trades: seq<string>, order: seq<string>, c: string)
    requires Consistent(g, names, index) && Serviceable(g, trades) && IsOrderOf(order, g.Keys)
    ensures Taken(trades, |trades|, c) <= |Get(g, c)|
    ensures Filter(Flatten(order, Remaining(g, trades)), names, index, c) == Get(g, c)[Taken(trades, |trades|, c)..]
  {
    var m := Remaining(g, trades);
    assert Taken(trades, |trades|, c) <= |Get(g, c)|;
    RemainingConsistent(g, names, index, trades);
    FilterFlatten(order, m, names, index, c);
    if c in order {
      ReverseReverse(g[c][Taken(trades, |trades|, c)..]);
    }
  }

  /** One assembly's count: what is left plus what was served is what was
      there. */
  lemma {:induction false} ServeConservesOne(g: map<string, seq<int>>, spent: seq<int>, names: seq<string>,
                                             index: map<int, nat>, trades: seq<string>, order: seq<string>, x: int)
    requires AllNamed(spent, names, index) && Consistent(g, names, index)
    requires forall c :: Get(g, c) == Filter(spent, names, index, c)
    requires Serviceable(g, trades) && IsOrderOf(order, g.Keys)
    ensures multiset(Flatten(order, Remaining(g, trades)))[x] + multiset(Served(g, trades, |trades|))[x]
            == multiset(spent)[x]
  {
    var pushed := Flatten(order, Remaining(g, trades));
    var served := Served(g, trades, |trades|);
    match NameOf(names, index, x)
    case Some(c) =>
      var f := Get(g, c);
      var n := Taken(trades, |trades|, c);
      FilterServed(g, names, index, trades, |trades|, c);
      LeftInOrder(g, names, index, trades, order, c);
      CountThroughFilter(pushed, names, index, x, c);
      CountThroughFilter(served, names, index, x, c);
      CountThroughFilter(spent, names, index, x, c);
      SplitCount(f, n, x);
    case None =>
      LeftNamed(g, names, index, trades, order);
      ServedNamed(g, names, index, trades);
      Unnamed(spent, names, index, x);
      Unnamed(pushed, names, index, x);
      Unnamed(served, names, index, x);
  }

  /** An assembly without a commodity is in no buffer whose assemblies all
      have one. */
  lemma Unnamed(s: seq<int>, names: seq<string>, index: map<int, nat>, x: int)
    requires AllNamed(s, names, index) && NameOf(names, index, x).None?
    ensures multiset(s)[x] == 0
  {
    assert x !in s;
  }

  lemma SplitCount(f: seq<int>, n: nat, x: int)
    requires n <= |f|
    ensures multiset(f[..n])[x] + multiset(f[n..])[x] == multiset(f)[x]
  {
    assert f == f[..n] + f[n..];
  }

  /** Every assembly left after serving has a commodity. */
  lemma LeftNamed(g: map<string, seq<int>>, names: seq<string>, index: map<int, nat>,
                  trades: seq<string>, order: seq<string>)
    requires Consistent(g, names, index) && Serviceable(g, trades) && IsOrderOf(order, g.Keys)
    ensures AllNamed(Flatten(order, Remaining(g, trades)), names, index)
  {
    var m := Remaining(g, trades);
    var pushed := Flatten(order, m);
    RemainingConsistent(g, names, index, trades);
    forall i | 0 <= i < |pushed|
      ensures NameOf(names, index, pushed[i]).Some?
    {
      var x := pushed[i];
      FlattenMembers(order, m, x);
      var c :| c in m && x in m[c];
    }
  }

  /** Every served assembly has a commodity. */
  lemma ServedNamed(g: map<string, seq<int>>, names: seq<string>, index: map<int, nat>, trades: seq<string>)
    requires Consistent(g, names, index) && Serviceable(g, trades)
    ensures AllNamed(Served(g, trades, |trades|), names, index)
  {
    var served := Served(g, trades, |trades|);
    ServedOldestFirst(g, trades, |trades|);
    forall i | 0 <= i < |served|
      ensures NameOf(names, index, served[i]).Some?
    {
      assert served[i] in Get(g, trades[i]);
    }
  }

  lemma EraseOne(idx: map<int, nat>, served: seq<int>, m: int)
    ensures (idx - (set x | x in served)) - {m} == idx - (set x | x in served + [m])
  {
    assert (set x | x in served + [m]) == (set x | x in served) + {m};
  }

  /** `IndexRes_`'s search: the first position of `c`. */
  function FirstIndex(names: seq<string>, c: string): (i: nat)
    requires c in names
    ensures i < |names| && names[i] == c
    ensures forall j :: 0 <= j < i ==> names[j] != c
  {
    if names[0] == c then 0 else 1 + FirstIndex(names[1..], c)
  }

  /** A delivered assembly: the commodity it was requested as, and its id. */
  datatype Delivery = Delivery(commodity: string, id: int)

  /** The reactor takes the commodity. */
  predicate Supported(d: Delivery, inCommods: seq<string>) {
    d.commodity in inCommods
  }

  /** Position of the first delivery of a commodity not in `inCommods`, or
      the number of deliveries. */
  function FirstUnsupported(responses: seq<Delivery>, inCommods: seq<string>): (k: nat)
    ensures k <= |responses|
    ensures forall i :: 0 <= i < k ==> Supported(responses[i], inCommods)
    ensures k < |responses| ==> !Supported(responses[k], inCommods)
  {
    if responses == [] then 0
    else if !Supported(responses[0], inCommods) then 0
    else 1 + FirstUnsupported(responses[1..], inCommods)
  }

  /** `res_indexes` after indexing the first `k` deliveries in turn
      (deliveries of unknown commodities leave it alone). */
  function Indexed(index: map<int, nat>, responses: seq<Delivery>, inCommods: seq<string>, k: nat): map<int, nat>
    requires k <= |responses|
  {
    if k == 0 then index
    else
      var prev := Indexed(index, responses, inCommods, k - 1);
      var d := responses[k - 1];
      if Supported(d, inCommods) then prev[d.id := FirstIndex(inCommods, d.commodity)] else prev
  }

  /** One request of a mutual request set: commodity, preference, recipe
      and quantity. */
  datatype Request = Request(commodity: string, pref: real, recipe: string, quantity: real)

  // ---------------------------------------------------------------------------
  // The reactor

  class GprReactor {
    // Configuration, set from the input after construction.
    var inCommods: seq<string>
    var outCommods: seq<string>
    var inRecipes: seq<string>
    var outRecipes: seq<string>
    var fuelPrefs: seq<real>
    var nAssemCore: int
    var nAssemBatch: int
    var assemSize: real
    var nAssemFresh: int
    var nAssemSpent: int
    var decomTransmuteAll: bool
    var cycleTime: int
    var refuelTime: int
    var sideProducts: seq<string>
    var isHybrid: bool
    var powerOutput: real
    /** The agent's exit time, -1 when it never retires. */
    var exitTime: int
    /** Capacity of the spent buffer (its declaration is not part of this
        model). */
    var spentCapacity: real

    // State.
    var cycleStep: int
    var discharged: bool
    var resIndexes: map<int, nat>
    var core: seq<int>
    var freshInv: seq<int>
    var spentInv: seq<int>
    var transmuted: set<int>
    var decommissioned: bool

    /** A configured reactor: a positive batch size and a core never
        holding more than its size. */
    predicate Valid()
      reads this
    {
      nAssemBatch > 0 && |core| <= nAssemCore
    }

    /** Every count, time and list starts empty or zero; `is_hybrid` starts
        true. */
    constructor ()
      ensures inCommods == [] && outCommods == [] && inRecipes == [] && outRecipes == [] && fuelPrefs == []
      ensures nAssemCore == 0 && nAssemBatch == 0 && assemSize == 0.0 && nAssemFresh == 0 && nAssemSpent == 0
      ensures !decomTransmuteAll && cycleTime == 0 && refuelTime == 0 && cycleStep == 0 && !discharged
      ensures resIndexes == map[] && isHybrid && sideProducts == [] && exitTime == -1 && powerOutput == 0.0
      ensures core == [] && freshInv == [] && spentInv == [] && transmuted == {} && !decommissioned
    {
      inCommods, outCommods, inRecipes, outRecipes, fuelPrefs := [], [], [], [], [];
      nAssemCore, nAssemBatch, assemSize, nAssemFresh, nAssemSpent := 0, 0, 0.0, 0, 0;
      decomTransmuteAll, cycleTime, refuelTime, cycleStep, discharged := false, 0, 0, 0, false;
      resIndexes, isHybrid, sideProducts, exitTime, spentCapacity := map[], true, [], -1, 0.0;
      core, freshInv, spentInv, transmuted, decommissioned := [], [], [], {}, false;
      powerOutput := 0.0;
    }

    /** `Retired_`: past the exit time. A reactor without an exit time (-1)
        never retires; one with an exit time is retired from the step after
        it on, and stays retired (`RetiredStays`). */
    predicate Retired(time: int)
      reads this
      ensures exitTime == -1 ==> !Retired(time)
      ensures exitTime != -1 ==> (Retired(time) <==> time >= exitTime + 1)
    {
      exitTime != -1 && time > exitTime
    }

    /** Retirement is permanent: retired at `time`, retired at every later
        step. */
    lemma RetiredStays(time: int, later: int)
      requires Retired(time) && time <= later
      ensures Retired(later)
    {
    }

    /** `CheckDecommissionCondition`: core and spent buffer are empty, that
        is, no assembly is held outside the fresh buffer, and every assembly
        the reactor still holds is fresh (`DecommissionHoldsOnlyFresh`). */
    predicate CheckDecommissionCondition()
      reads this
      ensures CheckDecommissionCondition() <==> |core| + |spentInv| == 0
    {
      core == [] && spentInv == []
    }

    lemma DecommissionHoldsOnlyFresh()
      ensures CheckDecommissionCondition() <==> Assemblies() == multiset(freshInv)
    {
    }

    /** Every assembly the reactor holds, in whichever buffer. */
    ghost function Assemblies(): multiset<int>
      reads this
    {
      multiset(core) + multiset(freshInv) + multiset(spentInv)
    }

    /** `OutCommod_`. */
    function OutCommod(id: int): (r: Result<string>)
      reads this
      ensures r.Success? <==> IndexOf(resIndexes, id) < |outCommods|
      ensures r.Success? ==> r.value == outCommods[IndexOf(resIndexes, id)]
      ensures r.Failure? ==> r.error == KeyError(NoOutcommodMsg)
    {
      match NameOf(outCommods, resIndexes, id)
      case Some(c) => Success(c)
      case None => Failure(KeyError(NoOutcommodMsg))
    }

    /** `OutRecipe_`. */
    function OutRecipe(id: int): (r: Result<string>)
      reads this
      ensures r.Success? <==> IndexOf(resIndexes, id) < |outRecipes|
      ensures r.Success? ==> r.value == outRecipes[IndexOf(resIndexes, id)]
      ensures r.Failure? ==> r.error == KeyError(NoOutrecipeMsg)
    {
      match NameOf(outRecipes, resIndexes, id)
      case Some(c) => Success(c)
      case None => Failure(KeyError(NoOutrecipeMsg))
    }

    /** `IndexRes_`: remembers the position of the first in-commodity equal
        to `commod`, so that the assembly leaves as the out-commodity and
        with the out-recipe at that position; an unknown commodity is a
        ValueError and changes nothing. */
    method IndexRes(id: int, commod: string) returns (r: Outcome)
      modifies this`resIndexes
      ensures commod !in inCommods ==> r == Fail(ValueError(UnsupportedIncommodMsg)) && resIndexes == old(resIndexes)
      ensures commod in inCommods ==>
                r == Pass && resIndexes == old(resIndexes)[id := FirstIndex(inCommods, commod)]
    {
      resIndexes, r := IndexIn(resIndexes, inCommods, id, commod);
    }

    /** The grouping loop shared by `PeekSpent_` and `PopSpent_`: each
        assembly appended to its out-commodity's list, stopping at the first
        without one. */
    method GroupByOutCommod(ids: seq<int>) returns (g: Option<map<string, seq<int>>>)
      ensures g == Group(ids, outCommods, resIndexes)
    {
      var mapped: map<string, seq<int>> := map[];
      for i := 0 to |ids|
        invariant Group(ids[..i], outCommods, resIndexes) == Some(mapped)
      {
        assert ids[..i + 1][..i] == ids[..i];
        var c := OutCommod(ids[i]);
        if c.Failure? {
          assert !AllNamed(ids[..i + 1], outCommods, resIndexes);
          assert !AllNamed(ids, outCommods, resIndexes) by {
            assert ids[..i + 1][i] == ids[i];
          }
          return None;
        }
        mapped := mapped[c.value := Get(mapped, c.value) + [ids[i]]];
      }
      assert ids[..|ids|] == ids;
      g := Some(mapped);
    }

    /** `PeekSpent_`: the spent assemblies grouped by out-commodity, in
        buffer order; the buffer itself is put back as it was. */
    method PeekSpent() returns (r: Result<map<string, seq<int>>>)
      ensures Group(spentInv, outCommods, resIndexes).None? ==> r == Failure(KeyError(NoOutcommodMsg))
      ensures Group(spentInv, outCommods, resIndexes).Some? ==>
                r.Success? && forall c :: Get(r.value, c) == Filter(spentInv, outCommods, resIndexes, c)
    {
      var g := GroupByOutCommod(spentInv);
      if g.None? {
        return Failure(KeyError(NoOutcommodMsg));
      }
      r := Success(g.value);
    }

    /** `PopSpent_`: empties the spent buffer and returns its assemblies
        grouped by out-commodity, each list reversed so that its back is the
        oldest assembly. A KeyError leaves the buffer empty. */
    method PopSpent() returns (r: Result<map<string, seq<int>>>)
      modifies this`spentInv
      ensures spentInv == []
      ensures Group(old(spentInv), outCommods, resIndexes).None? ==> r == Failure(KeyError(NoOutcommodMsg))
      ensures Group(old(spentInv), outCommods, resIndexes).Some? ==>
                r == Success(ReverseAll(Group(old(spentInv), outCommods, resIndexes).value))
    {
      var mats := spentInv;
      spentInv := [];
      var g := GroupByOutCommod(mats);
      if g.None? {
        return Failure(KeyError(NoOutcommodMsg));
      }
      var mapped := ReverseEach(g.value);
      r := Success(mapped);
    }

    /** `PushSpent_`: appends each list reversed to the spent buffer,
        visiting the commodities in ascending order. */
    method PushSpent(mats: map<string, seq<int>>)
      modifies this`spentInv
      ensures spentInv == old(spentInv) + Flatten(SortedKeys(mats.Keys), mats)
      ensures old(Valid()) ==> Valid()
    {
      var pushed := FlattenEach(mats);
      spentInv := spentInv + pushed;
    }

    /** `Transmute_(n)`: the first min(n, core size) assemblies of the core
        are popped and pushed back, the rest rotated behind them, so the
        core is as it was; then those assemblies are transmuted in order,
        up to the first without an out-recipe, which is a KeyError. */
    method Transmute(n: int) returns (r: Outcome)
      requires n >= 0
      modifies this`core, this`transmuted
      ensures core == old(core)
      ensures var front := old(core)[..Min(n, |old(core)|)];
              var k := FirstUnnamed(front, outRecipes, resIndexes);
              transmuted == old(transmuted) + (set x | x in front[..k]) &&
              (r.Pass? <==> k == |front|) && (r.Fail? ==> r.error == KeyError(NoOutrecipeMsg))
    {
      var front := RotateFront(Min(n, |core|));
      ghost var k := FirstUnnamed(front, outRecipes, resIndexes);
      var done: set<int> := {};
      r := Pass;
      var i := 0;
      while i < |front|
        invariant i <= k && done == (set x | x in front[..i])
        invariant r == Pass
      {
        var recipe := OutRecipe(front[i]);
        if recipe.Failure? {
          r := Fail(recipe.error);
          break;
        }
        assert front[..i + 1] == front[..i] + [front[i]];
        done := done + {front[i]};
        i := i + 1;
      }
      transmuted := transmuted + done;
    }

    /** The buffer moves of `Transmute_`: pop the first `k` assemblies,
        push them back, then pop the others and push them behind, which
        restores the order. */
    method RotateFront(k: nat) returns (front: seq<int>)
      requires k <= |core|
      modifies this`core
      ensures core == old(core) && front == core[..k]
    {
      front := core[..k];
      core := core[k..];
      core := core + front;
      if |core| > |front| {
        var back := core[..|core| - |front|];
        core := core[|core| - |front|..];
        core := core + back;
      }
      assert old(core) == front + old(core)[k..];
    }

    /** `Discharge_`: moves min(batch, core size) assemblies from the front
        of the core to the back of the spent buffer when the spent buffer
        has room for them, and reports whether it did. The bookkeeping that
        follows reads every spent assembly's out-commodity, which is a
        KeyError for an assembly without one. */
    method Discharge() returns (r: Result<bool>)
      requires nAssemBatch >= 0
      modifies this`core, this`spentInv
      ensures (core, spentInv) == Discharged(nAssemBatch, nAssemSpent, old(core), old(spentInv))
      ensures r == if !CanDischarge(nAssemBatch, nAssemSpent, old(core), old(spentInv)) then Success(false)
                   else if outCommods != [] && Group(spentInv, outCommods, resIndexes).None?
                   then Failure(KeyError(NoOutcommodMsg)) else Success(true)
      ensures Assemblies() == old(Assemblies())
    {
      var n := Min(nAssemBatch, |core|);
      if nAssemSpent - |spentInv| < n {
        return Success(false);
      }
      assert core == core[..n] + core[n..];
      spentInv := spentInv + core[..n];
      core := core[n..];
      for j := 0 to |outCommods|
        invariant core == old(core)[n..] && spentInv == old(spentInv) + old(core)[..n]
        invariant j > 0 ==> Group(spentInv, outCommods, resIndexes).Some?
      {
        var mats := PeekSpent();
        if mats.Failure? {
          return mats.PropagateFailure();
        }
      }
      r := Success(true);
    }

    /** `Load_`: moves min(free core slots, fresh assemblies) from the front
        of the fresh buffer to the back of the core. */
    method Load()
      requires |core| <= nAssemCore
      modifies this`core, this`freshInv
      ensures (core, freshInv) == Loaded(nAssemCore, old(core), old(freshInv))
      ensures |core| <= nAssemCore && (|core| == nAssemCore || freshInv == [])
      ensures Assemblies() == old(Assemblies())
      ensures old(Valid()) ==> Valid()
    {
      var n := Min(nAssemCore - |core|, |freshInv|);
      if n == 0 {
        assert core + freshInv[..n] == core && freshInv[n..] == freshInv;
        return;
      }
      assert freshInv == freshInv[..n] + freshInv[n..];
      core := core + freshInv[..n];
      freshInv := freshInv[n..];
    }

    /** `AcceptMatlTrades`: every delivered assembly is indexed by its
        commodity and goes to the core while the core has room, then to the
        fresh buffer; a delivery of an unknown commodity is a ValueError
        that stops the loop. */
    method AcceptMatlTrades(responses: seq<Delivery>) returns (r: Outcome)
      modifies this`core, this`freshInv, this`resIndexes
      ensures var k := FirstUnsupported(responses, inCommods);
              var toCore := CoreShare(k, nAssemCore - |old(core)|);
              core == old(core) + IdsOf(responses)[..toCore] &&
              freshInv == old(freshInv) + IdsOf(responses)[toCore..k] &&
              resIndexes == Indexed(old(resIndexes), responses, inCommods, k) &&
              (r.Pass? <==> k == |responses|) && (r.Fail? ==> r.error == ValueError(UnsupportedIncommodMsg))
      ensures old(Valid()) ==> Valid()
    {
      var inc, capacity := inCommods, nAssemCore;
      var ids := IdsOf(responses);
      ghost var idx0, core0, fresh0 := resIndexes, core, freshInv;
      ghost var free := capacity - |core|;
      var idx, toCore, toFresh := resIndexes, core, freshInv;
      r := Pass;
      var i := 0;
      while i < |responses|
        invariant i <= |responses| && r == Pass
        invariant FirstUnsupported(responses, inc) >= i
        invariant toCore == core0 + ids[..CoreShare(i, free)]
        invariant toFresh == fresh0 + ids[CoreShare(i, free)..i]
        invariant idx == Indexed(idx0, responses, inc, i)
      {
        idx, r := IndexIn(idx, inc, responses[i].id, responses[i].commodity);
        if r.Fail? {
          break;
        }
        assert Supported(responses[i], inc);
        toCore, toFresh := Place(toCore, toFresh, capacity, ids, core0, fresh0, free, i);
        i := i + 1;
      }
      assert FirstUnsupported(responses, inc) == i;
      assert free == nAssemCore - |core0| && inc == inCommods;
      core, freshInv, resIndexes := toCore, toFresh, idx;
    }

    /** `GetMatlTrades`: pops the spent buffer, serves every trade from the
        back of its commodity's reversed list (the oldest assembly left),
        forgets the served assembly's index, and pushes the rest back. The
        exchange only makes trades for assemblies that were offered, so
        every commodity has enough spent assemblies. */
    method GetMatlTrades(trades: seq<string>) returns (r: Result<seq<int>>)
      requires forall c :: Taken(trades, |trades|, c) <= |Filter(spentInv, outCommods, resIndexes, c)|
      modifies this`spentInv, this`resIndexes
      ensures var g := Group(old(spentInv), outCommods, old(resIndexes));
              if g.None? then
                r == Failure(KeyError(NoOutcommodMsg)) && spentInv == [] && resIndexes == old(resIndexes)
              else
                Serviceable(g.value, trades) &&
                r == Success(Served(g.value, trades, |trades|)) &&
                spentInv == Flatten(SortedKeys(g.value.Keys), Remaining(g.value, trades)) &&
                resIndexes == old(resIndexes) - (set x | x in r.value)
    {
      ghost var g0 := Group(spentInv, outCommods, resIndexes);
      var popped := PopSpent();
      if popped.Failure? {
        return popped.PropagateFailure();
      }
      ServiceableAlong(g0.value, trades);
      var left, served, idx := ServeAll(g0.value, popped.value, resIndexes, trades);
      resIndexes := idx;
      PushSpent(left);
      r := Success(served);
    }

    /** `EnterNotify`: without configured preferences every out-commodity
        gets cyclus' default preference; a reactor without side products
        is not hybrid. */
    method EnterNotify()
      modifies this`fuelPrefs, this`isHybrid
      ensures old(fuelPrefs) != [] ==> fuelPrefs == old(fuelPrefs)
      ensures old(fuelPrefs) == [] ==>
                |fuelPrefs| == |outCommods| && forall i :: 0 <= i < |fuelPrefs| ==> fuelPrefs[i] == DefaultPref
      ensures isHybrid <==> old(isHybrid) && sideProducts != []
    {
      if fuelPrefs == [] {
        var prefs: seq<real> := [];
        for i := 0 to |outCommods|
          invariant |prefs| == i && forall j :: 0 <= j < i ==> prefs[j] == DefaultPref
        {
          prefs := prefs + [DefaultPref];
        }
        fuelPrefs := prefs;
      }
      if sideProducts == [] {
        isHybrid := false;
      }
    }

    /** The free places of the core and the fresh buffer. */
    function Free(): int
      reads this
    {
      nAssemCore - |core| + nAssemFresh - |freshInv|
    }

    /** The assemblies the cycles left before retirement still need beyond
        what the fresh buffer and the core hold. */
    function Needed(time: int): (n: int)
      reads this
      requires exitTime != -1 && cycleTime + refuelTime > 0
    {
      CyclesLeft(exitTime - time + 1, cycleTime + refuelTime - cycleStep, cycleTime + refuelTime) *
        nAssemBatch - nAssemFresh + nAssemCore - |core|
    }

    /** The number of assemblies `GetMatlRequests` orders: the free places,
        cut, when the reactor retires, to what its remaining cycles need
        (never below zero). */
    function OrderCount(time: int): (n: int)
      reads this
      requires exitTime != -1 ==> cycleTime + refuelTime > 0
      ensures n <= Free()
      ensures exitTime == -1 ==> n == Free()
      ensures exitTime != -1 ==> n <= Max(0, Needed(time)) && (n == Free() || n == Max(0, Needed(time)))
    {
      if exitTime == -1 then Free() else Min(Free(), Max(0, Needed(time)))
    }

    /** `GetMatlRequests`: nothing when no assembly is to be ordered or the
        reactor is retired; otherwise one portfolio per ordered assembly,
        holding one mutual request per in-commodity with that position's
        preference and recipe and the assembly size. */
    method GetMatlRequests(time: int) returns (ports: seq<seq<Request>>)
      requires exitTime != -1 ==> cycleTime + refuelTime > 0
      requires |fuelPrefs| >= |inCommods| && |inRecipes| >= |inCommods|
      ensures var n := OrderCount(time);
              |ports| == if n == 0 || Retired(time) then 0 else Max(0, n)
      ensures forall i :: 0 <= i < |ports| ==> |ports[i]| == |inCommods|
      ensures forall i, j :: 0 <= i < |ports| && 0 <= j < |inCommods| ==>
                ports[i][j] == Request(inCommods[j], fuelPrefs[j], inRecipes[j], assemSize)
    {
      ports := [];
      var n := OrderCount(time);
      if n == 0 || Retired(time) {
        return;
      }
      var port: seq<Request> := [];
      for j := 0 to |inCommods|
        invariant |port| == j
        invariant forall k :: 0 <= k < j ==> port[k] == Request(inCommods[k], fuelPrefs[k], inRecipes[k], assemSize)
      {
        port := port + [Request(inCommods[j], fuelPrefs[j], inRecipes[j], assemSize)];
      }
      var i := 0;
      while i < n
        invariant |ports| == Max(0, i) && (i <= 0 || i <= n)
        invariant forall k :: 0 <= k < |ports| ==> ports[k] == port
      {
        ports := ports + [port];
        i := i + 1;
      }
    }

    /** The retired reactor's move of fresh assemblies, from the front of
        the fresh buffer to the back of the spent buffer, while there is
        room; afterwards the fresh buffer is empty or the spent buffer
        full. */
    method MoveFreshToSpent()
      modifies this`freshInv, this`spentInv
      ensures (freshInv, spentInv) == MoveFresh(spentCapacity, assemSize, old(freshInv), old(spentInv))
      ensures freshInv == [] || !Room(spentCapacity, assemSize, |spentInv|)
      ensures Assemblies() == old(Assemblies())
      ensures |spentInv| >= |old(spentInv)|
      ensures old(Valid()) ==> Valid()
    {
      var moved := MoveFresh(spentCapacity, assemSize, freshInv, spentInv);
      MoveFreshStops(spentCapacity, assemSize, freshInv, spentInv);
      assert multiset(moved.0) + multiset(moved.1) == multiset(freshInv) + multiset(spentInv);
      freshInv, spentInv := MoveWhileRoom(freshInv, spentInv, spentCapacity, assemSize);
      assert multiset(freshInv) + multiset(spentInv) == multiset(old(freshInv)) + multiset(old(spentInv));
      assert Assemblies() == multiset(core) + (multiset(freshInv) + multiset(spentInv));
    }

    /** The retired reactor's discharge: `Discharge_` until the core is
        empty or the spent buffer has no room for a batch. Assemblies leave
        the front of the core for the back of the spent buffer in order. */
    method DischargeAll() returns (r: Outcome)
      requires nAssemBatch > 0
      modifies this`core, this`spentInv
      ensures (core, spentInv, r.Pass?) == DischargedAll(nAssemBatch, nAssemSpent, old(core), old(spentInv), outCommods, resIndexes)
      ensures r.Pass? ==> core == [] || nAssemSpent - |spentInv| < Min(nAssemBatch, |core|)
      ensures r.Fail? ==> r == Fail(KeyError(NoOutcommodMsg))
      ensures var m := |old(core)| - |core|;
              0 <= m && core == old(core)[m..] && spentInv == old(spentInv) + old(core)[..m]
      ensures Assemblies() == old(Assemblies()) && |core| <= |old(core)|
    {
      r := Pass;
      while |core| > 0
        invariant DischargedAll(nAssemBatch, nAssemSpent, core, spentInv, outCommods, resIndexes) ==
                  DischargedAll(nAssemBatch, nAssemSpent, old(core), old(spentInv), outCommods, resIndexes)
        invariant |core| <= |old(core)| && spentInv + core == old(spentInv) + old(core)
        invariant Assemblies() == old(Assemblies())
        decreases |core|
      {
        DischargedAllStep(nAssemBatch, nAssemSpent, core, spentInv, outCommods, resIndexes);
        var d := Discharge();
        if d.Failure? {
          r := Fail(d.error);
          break;
        }
        if !d.value {
          break;
        }
      }
      MovedPrefix(old(spentInv), old(core), spentInv, core);
    }

    /** `Tick`: the retired or the operating reactor's step. A KeyError of
        one step ends the tick. No assembly is lost or duplicated. */
    method Tick(time: int) returns (r: Outcome)
      requires Valid()
      modifies this`core, this`freshInv, this`spentInv, this`transmuted, this`discharged, this`decommissioned
      ensures Valid()
      ensures Assemblies() == old(Assemblies())
      ensures old(transmuted) <= transmuted
      ensures Retired(time) ==>
                RetiredTicked(time, old(core), old(freshInv), old(spentInv), old(decommissioned), r) && discharged == old(discharged) &&
                transmuted == old(transmuted) + ExitTransmuted(time, old(core)) &&
                (time != exitTime + 1 ==> transmuted == old(transmuted)) &&
                (r.Pass? ==> (core == [] || nAssemSpent - |spentInv| < Min(nAssemBatch, |core|)) &&
                             (freshInv == [] || !Room(spentCapacity, assemSize, |spentInv|)))
      ensures !Retired(time) ==>
                OperatedTick(old(core), old(freshInv), old(spentInv), old(discharged), r) && decommissioned == old(decommissioned) &&
                transmuted == old(transmuted) + CycleEndTransmuted(old(core)) &&
                (cycleStep != cycleTime ==> transmuted == old(transmuted)) &&
                (cycleStep >= cycleTime && r.Pass? ==> |core| == nAssemCore || freshInv == [])
    {
      if Retired(time) {
        r := RetiredTick(time);
      } else {
        r := OperatingTick();
      }
    }

    /** The assemblies the retired reactor transmutes: the whole core, or
        its first half, rounded up. */
    function ExitBatch(): int
      reads this`decomTransmuteAll, this`nAssemCore
    {
      if decomTransmuteAll then nAssemCore else CeilDiv(nAssemCore, 2)
    }

    /** The assemblies the retired reactor transmutes from core `core0`:
        its exit batch in the step right after the exit time, none
        otherwise. */
    function ExitTransmuted(time: int, core0: seq<int>): set<int>
      reads this`exitTime, this`decomTransmuteAll, this`nAssemCore, this`outRecipes, this`resIndexes
    {
      if time == exitTime + 1 then TransmutedFront(core0, ExitBatch(), outRecipes, resIndexes) else {}
    }

    /** The assemblies the operating reactor transmutes from core `core0`:
        its first batch at the end of the cycle, none otherwise. */
    function CycleEndTransmuted(core0: seq<int>): set<int>
      reads this`cycleStep, this`cycleTime, this`nAssemBatch, this`outRecipes, this`resIndexes
    {
      if cycleStep == cycleTime then TransmutedFront(core0, nAssemBatch, outRecipes, resIndexes) else {}
    }

    /** What the retired reactor's `Tick` does to buffers `core0`, `fresh0`
        and `spent0` and flag `decommissioned0`: when the transmutation in
        the step after the exit time meets an assembly without an
        out-recipe, nothing moves; otherwise the reactor is emptied. */
    predicate RetiredTicked(time: int, core0: seq<int>, fresh0: seq<int>, spent0: seq<int>, decommissioned0: bool,
                            r: Outcome)
      requires nAssemBatch > 0
      reads this
    {
      if time != exitTime + 1 || FrontNamed(core0, ExitBatch(), outRecipes, resIndexes) then
        Emptied(core0, fresh0, spent0, decommissioned0, r)
      else
        r == Fail(KeyError(NoOutrecipeMsg)) && core == core0 && freshInv == fresh0 &&
        spentInv == spent0 && decommissioned == decommissioned0
    }

    /** The retired reactor's `Tick`: it transmutes, once, its whole core
        or its first half, discharges what it can, moves fresh assemblies to
        the spent buffer while there is room, and is decommissioned once
        core and spent buffer are empty. */
    method RetiredTick(time: int) returns (r: Outcome)
      requires Valid()
      modifies this`core, this`freshInv, this`spentInv, this`transmuted, this`decommissioned
      ensures Valid() && Assemblies() == old(Assemblies()) && old(transmuted) <= transmuted
      ensures RetiredTicked(time, old(core), old(freshInv), old(spentInv), old(decommissioned), r)
      ensures transmuted == old(transmuted) + ExitTransmuted(time, old(core))
      ensures time != exitTime + 1 ==> transmuted == old(transmuted)
      ensures r.Pass? ==> (core == [] || nAssemSpent - |spentInv| < Min(nAssemBatch, |core|)) &&
                          (freshInv == [] || !Room(spentCapacity, assemSize, |spentInv|))
    {
      ghost var core0, fresh0, spent0, decommissioned0 := core, freshInv, spentInv, decommissioned;
      r := TransmuteAtExit(time);
      if r.Pass? {
        r := EmptyAfterExit(time);
      } else {
        assert core == core0 && freshInv == fresh0 && spentInv == spent0 && decommissioned == decommissioned0;
      }
    }

    /** `RetiredTick` once the transmutation passed: the emptying. */
    method EmptyAfterExit(time: int) returns (r: Outcome)
      requires Valid() && (time != exitTime + 1 || FrontNamed(core, ExitBatch(), outRecipes, resIndexes))
      modifies this`core, this`freshInv, this`spentInv, this`decommissioned
      ensures Valid() && Assemblies() == old(Assemblies())
      ensures RetiredTicked(time, old(core), old(freshInv), old(spentInv), old(decommissioned), r)
      ensures r.Pass? ==> (core == [] || nAssemSpent - |spentInv| < Min(nAssemBatch, |core|)) &&
                          (freshInv == [] || !Room(spentCapacity, assemSize, |spentInv|))
    {
      r := Empty();
    }

    /** What emptying does to buffers `core0`, `fresh0` and `spent0` and
        flag `decommissioned0`: the discharge loop moves whole batches from
        the front of the core to the back of the spent buffer while they
        fit (`DischargedAll`); unless its bookkeeping fails, fresh
        assemblies follow them while there is room, and the reactor is
        decommissioned once core and spent buffer are empty. */
    predicate Emptied(core0: seq<int>, fresh0: seq<int>, spent0: seq<int>, decommissioned0: bool, r: Outcome)
      requires nAssemBatch > 0
      reads this
    {
      var (core1, spent1, ok) := DischargedAll(nAssemBatch, nAssemSpent, core0, spent0, outCommods, resIndexes);
      core == core1 && (r.Pass? <==> ok) &&
      if !ok then
        r == Fail(KeyError(NoOutcommodMsg)) && freshInv == fresh0 &&
        spentInv == spent1 && decommissioned == decommissioned0
      else
        (freshInv, spentInv) == MoveFresh(spentCapacity, assemSize, fresh0, spent1) &&
        (decommissioned <==> decommissioned0 || CheckDecommissionCondition())
    }

    /** The rest of the retired reactor's `Tick`: discharge what it can,
        move fresh assemblies to the spent buffer while there is room, and
        decommission once core and spent buffer are empty. */
    method Empty() returns (r: Outcome)
      requires Valid()
      modifies this`core, this`freshInv, this`spentInv, this`decommissioned
      ensures Valid() && Assemblies() == old(Assemblies())
      ensures Emptied(old(core), old(freshInv), old(spentInv), old(decommissioned), r)
      ensures r.Pass? ==> (core == [] || nAssemSpent - |spentInv| < Min(nAssemBatch, |core|)) &&
                          (freshInv == [] || !Room(spentCapacity, assemSize, |spentInv|))
    {
      ghost var core0, spent0 := core, spentInv;
      r := DischargeAll();
      r := MoveAfterDischarge(core0, spent0, r);
    }

    /** `Empty` after the discharge loop of core `core0` and spent buffer
        `spent0` ended with `r0`: on success the fresh assemblies move and
        the reactor may be decommissioned; a failure changes nothing more. */
    method MoveAfterDischarge(ghost core0: seq<int>, ghost spent0: seq<int>, r0: Outcome) returns (r: Outcome)
      requires Valid()
      requires (core, spentInv, r0.Pass?) == DischargedAll(nAssemBatch, nAssemSpent, core0, spent0, outCommods, resIndexes)
      requires r0.Fail? ==> r0 == Fail(KeyError(NoOutcommodMsg))
      requires r0.Pass? ==> core == [] || nAssemSpent - |spentInv| < Min(nAssemBatch, |core|)
      modifies this`freshInv, this`spentInv, this`decommissioned
      ensures Valid() && Assemblies() == old(Assemblies())
      ensures Emptied(core0, old(freshInv), spent0, old(decommissioned), r)
      ensures r.Pass? ==> (core == [] || nAssemSpent - |spentInv| < Min(nAssemBatch, |core|)) &&
                          (freshInv == [] || !Room(spentCapacity, assemSize, |spentInv|))
    {
      r := r0;
      if r.Pass? {
        MoveAndDecommission();
      }
    }

    /** The end of the retired reactor's `Tick`: fresh assemblies move to
        the spent buffer while there is room, and the reactor is
        decommissioned once core and spent buffer are empty. */
    method MoveAndDecommission()
      modifies this`freshInv, this`spentInv, this`decommissioned
      ensures (freshInv, spentInv) == MoveFresh(spentCapacity, assemSize, old(freshInv), old(spentInv))
      ensures Assemblies() == old(Assemblies()) && |spentInv| >= |old(spentInv)|
      ensures freshInv == [] || !Room(spentCapacity, assemSize, |spentInv|)
      ensures decommissioned <==> old(decommissioned) || CheckDecommissionCondition()
      ensures old(Valid()) ==> Valid()
    {
      MoveFreshToSpent();
      if CheckDecommissionCondition() {
        decommissioned := true;
      }
    }

    /** The retired reactor's transmutation, in the step right after the
        exit time, of the `ExitBatch()` front assemblies of the core (which
        assemblies, `Transmute` states); it fails exactly when one of them
        has no out-recipe. */
    method TransmuteAtExit(time: int) returns (r: Outcome)
      requires Valid()
      modifies this`core, this`transmuted
      ensures core == old(core) && old(transmuted) <= transmuted
      ensures transmuted == old(transmuted) + ExitTransmuted(time, old(core))
      ensures time != exitTime + 1 ==> r == Pass && transmuted == old(transmuted)
      ensures r.Pass? <==> time != exitTime + 1 || FrontNamed(core, ExitBatch(), outRecipes, resIndexes)
      ensures r.Fail? ==> r == Fail(KeyError(NoOutrecipeMsg))
    {
      r := Pass;
      if time == exitTime + 1 {
        var n := ExitBatch();
        r := Transmute(n);
        FrontNamedIff(core, n, outRecipes, resIndexes);
      }
    }

    /** What the operating reactor's `Tick` does to its buffers and its
        discharge flag, from buffers `core0`, `fresh0`, `spent0` and flag
        `discharged0`: when the transmutation at the cycle end meets an
        assembly without an out-recipe, nothing moves. Otherwise, from the
        cycle end on, a discharge that is due moves the first batch to the
        spent buffer if it has room, and the flag records whether it did;
        unless that discharge's bookkeeping fails, the free core slots are
        then filled from the fresh buffer. */
    predicate OperatedTick(core0: seq<int>, fresh0: seq<int>, spent0: seq<int>, discharged0: bool, r: Outcome)
      requires nAssemBatch > 0 && |core0| <= nAssemCore
      reads this
    {
      var transmuteOk := cycleStep != cycleTime || FrontNamed(core0, nAssemBatch, outRecipes, resIndexes);
      var (core1, spent1) := DueDischarge(core0, spent0, discharged0);
      if !transmuteOk then
        r == Fail(KeyError(NoOutrecipeMsg)) && core == core0 && freshInv == fresh0 &&
        spentInv == spent0 && discharged == discharged0
      else if r.Fail? then
        r == Fail(KeyError(NoOutcommodMsg)) && cycleStep >= cycleTime && !discharged0 &&
        core == core1 && freshInv == fresh0 && spentInv == spent1 && discharged == discharged0
      else
        spentInv == spent1 &&
        (discharged <==> discharged0 || (cycleStep >= cycleTime && CanDischarge(nAssemBatch, nAssemSpent, core0, spent0))) &&
        (core, freshInv) == if cycleStep >= cycleTime then Loaded(nAssemCore, core1, fresh0) else (core1, fresh0)
    }

    /** The core and the spent buffer `core0` and `spent0` after the
        discharge that is due from the cycle end on while `discharged0` is
        unset; nothing moves when none is due. */
    function DueDischarge(core0: seq<int>, spent0: seq<int>, discharged0: bool): (r: (seq<int>, seq<int>))
      requires nAssemBatch >= 0
      reads this`cycleStep, this`cycleTime, this`nAssemBatch, this`nAssemSpent
      ensures r.1 + r.0 == spent0 + core0 && |r.0| <= |core0|
    {
      if cycleStep >= cycleTime && !discharged0 then Discharged(nAssemBatch, nAssemSpent, core0, spent0)
      else (core0, spent0)
    }

    /** The operating reactor's `Tick`: at the end of the cycle the first
        batch is transmuted; from then on the core is discharged if it has
        not been yet, and fresh assemblies are loaded. */
    method OperatingTick() returns (r: Outcome)
      requires Valid()
      modifies this`core, this`freshInv, this`spentInv, this`transmuted, this`discharged
      ensures Valid() && Assemblies() == old(Assemblies()) && old(transmuted) <= transmuted
      ensures OperatedTick(old(core), old(freshInv), old(spentInv), old(discharged), r)
      ensures transmuted == old(transmuted) + CycleEndTransmuted(old(core))
      ensures cycleStep != cycleTime ==> transmuted == old(transmuted)
      ensures cycleStep >= cycleTime && r.Pass? ==> |core| == nAssemCore || freshInv == []
    {
      ghost var core0, fresh0, spent0, discharged0 := core, freshInv, spentInv, discharged;
      r := TransmuteAtCycleEnd();
      if r.Pass? {
        r := DischargeAndLoad();
      } else {
        assert core == core0 && freshInv == fresh0 && spentInv == spent0 && discharged == discharged0;
      }
    }

    /** The operating reactor's `Tick` after the transmutation: from the
        cycle end on, the core is discharged if it has not been yet, and
        fresh assemblies are loaded unless the discharge failed. */
    method DischargeAndLoad() returns (r: Outcome)
      requires Valid() && (cycleStep != cycleTime || FrontNamed(core, nAssemBatch, outRecipes, resIndexes))
      modifies this`core, this`freshInv, this`spentInv, this`discharged
      ensures Valid() && Assemblies() == old(Assemblies())
      ensures OperatedTick(old(core), old(freshInv), old(spentInv), old(discharged), r)
      ensures cycleStep >= cycleTime && r.Pass? ==> |core| == nAssemCore || freshInv == []
    {
      ghost var core0, spent0, discharged0 := core, spentInv, discharged;
      r := DischargeDue();
      r := LoadAfterDischarge(core0, spent0, discharged0, r);
    }

    /** `DischargeAndLoad` after the due discharge of core `core0` and spent
        buffer `spent0`, with flag `discharged0` before it, ended with `r0`:
        from the cycle end on the free core slots are loaded unless the
        discharge failed. */
    method LoadAfterDischarge(ghost core0: seq<int>, ghost spent0: seq<int>, ghost discharged0: bool, r0: Outcome)
      returns (r: Outcome)
      requires Valid() && |core0| <= nAssemCore
      requires cycleStep != cycleTime || FrontNamed(core0, nAssemBatch, outRecipes, resIndexes)
      requires (core, spentInv) == DueDischarge(core0, spent0, discharged0)
      requires r0.Fail? ==> r0 == Fail(KeyError(NoOutcommodMsg)) && cycleStep >= cycleTime && !discharged0 &&
                            discharged == discharged0
      requires r0.Pass? ==> (discharged <==> discharged0 ||
                                             (cycleStep >= cycleTime && CanDischarge(nAssemBatch, nAssemSpent, core0, spent0)))
      modifies this`core, this`freshInv
      ensures Valid() && Assemblies() == old(Assemblies())
      ensures OperatedTick(core0, old(freshInv), spent0, discharged0, r)
      ensures cycleStep >= cycleTime && r.Pass? ==> |core| == nAssemCore || freshInv == []
    {
      r := r0;
      if r.Pass? && cycleStep >= cycleTime {
        Load();
      }
    }

    /** The end of the cycle: the first batch of the core is transmuted
        (which assemblies, `Transmute` states); it fails exactly when one of
        them has no out-recipe. */
    method TransmuteAtCycleEnd() returns (r: Outcome)
      requires nAssemBatch > 0
      modifies this`core, this`transmuted
      ensures core == old(core) && old(transmuted) <= transmuted
      ensures transmuted == old(transmuted) + CycleEndTransmuted(old(core))
      ensures cycleStep != cycleTime ==> r == Pass && transmuted == old(transmuted)
      ensures r.Pass? <==> cycleStep != cycleTime || FrontNamed(core, nAssemBatch, outRecipes, resIndexes)
      ensures r.Fail? ==> r == Fail(KeyError(NoOutrecipeMsg))
    {
      r := Pass;
      if cycleStep == cycleTime {
        r := Transmute(nAssemBatch);
        FrontNamedIff(core, nAssemBatch, outRecipes, resIndexes);
      }
    }

    /** After the cycle, the core is discharged if it has not been yet; the
        flag records whether that found room and succeeded. */
    method DischargeDue() returns (r: Outcome)
      requires Valid()
      modifies this`core, this`spentInv, this`discharged
      ensures Valid() && Assemblies() == old(Assemblies())
      ensures cycleStep < cycleTime || old(discharged) ==>
                r == Pass && core == old(core) && spentInv == old(spentInv) && discharged == old(discharged)
      ensures (core, spentInv) == DueDischarge(old(core), old(spentInv), old(discharged))
      ensures r.Fail? ==>
                r == Fail(KeyError(NoOutcommodMsg)) && cycleStep >= cycleTime && !old(discharged) &&
                discharged == old(discharged)
      ensures r.Pass? ==>
                (discharged <==> old(discharged) ||
                                 (cycleStep >= cycleTime && CanDischarge(nAssemBatch, nAssemSpent, old(core), old(spentInv))))
    {
      r := Pass;
      if cycleStep >= cycleTime && !discharged {
        var d := Discharge();
        if d.Failure? {
          return Fail(d.error);
        }
        discharged := d.value;
      }
    }

    /** `Tock`. Nothing happens to a retired reactor. Otherwise a new cycle
        starts once the cycle and the refuelling time are over, the core is
        full and the spent fuel was discharged; the reactor produces its
        power when it is within the cycle with a full core, and nothing
        otherwise; and the counter advances, except for a reactor at step
        zero whose core is not full yet. */
    method Tock(time: int) returns (power: Option<real>)
      modifies this`cycleStep, this`discharged
      ensures Retired(time) ==> power == None && cycleStep == old(cycleStep) && discharged == old(discharged)
      ensures !Retired(time) ==>
                var full := |core| == nAssemCore;
                var reset := old(cycleStep) >= cycleTime + refuelTime && full && old(discharged);
                var step := if reset then 0 else old(cycleStep);
                discharged == (old(discharged) && !reset) &&
                power == Some(if 0 <= step < cycleTime && full then powerOutput else 0.0) &&
                cycleStep == (if step > 0 || full then step + 1 else step)
      ensures old(cycleStep) >= 0 ==> cycleStep >= 0
      ensures !Retired(time) && old(cycleStep) == 0 && |core| != nAssemCore ==> cycleStep == 0
      ensures !Retired(time) && old(cycleStep) > 0 ==> cycleStep == old(cycleStep) + 1 || cycleStep == 1
    {
      if Retired(time) {
        return None;
      }
      if cycleStep >= cycleTime + refuelTime && |core| == nAssemCore && discharged {
        discharged := false;
        cycleStep := 0;
      }
      if cycleStep >= 0 && cycleStep < cycleTime && |core| == nAssemCore {
        power := Some(powerOutput);
      } else {
        power := Some(0.0);
      }
      if cycleStep > 0 || |core| == nAssemCore {
        cycleStep := cycleStep + 1;
      }
    }
  }

  /** The assemblies `Transmute_(n)` transmutes in `core`: its first
      min(n, size), up to the first of them without an out-recipe. */
  function TransmutedFront(core: seq<int>, n: int, names: seq<string>, index: map<int, nat>): set<int> {
    var front := core[..Max(0, Min(n, |core|))];
    set x | x in front[..FirstUnnamed(front, names, index)]
  }

  /** Whether each of the first `n` assemblies of `ids` has a name. */
  predicate FrontNamed(ids: seq<int>, n: int, names: seq<string>, index: map<int, nat>) {
    forall i :: 0 <= i < n && i < |ids| ==> NameOf(names, index, ids[i]).Some?
  }

  /** The first `n` assemblies all have a name exactly when the search for
      the first unnamed one runs through them. */
  lemma FrontNamedIff(ids: seq<int>, n: int, names: seq<string>, index: map<int, nat>)
    requires n >= 0
    ensures var front := ids[..Min(n, |ids|)];
            FirstUnnamed(front, names, index) == |front| <==> FrontNamed(ids, n, names, index)
  {
    var front := ids[..Min(n, |ids|)];
    var k := FirstUnnamed(front, names, index);
    if k < |front| {
      assert front[k] == ids[k];
    } else {
      forall i | 0 <= i < n && i < |ids|
        ensures NameOf(names, index, ids[i]).Some?
      {
        assert front[i] == ids[i];
      }
    }
  }

  /** Whether `Discharge_` finds room for the next batch of `core` in a
      spent buffer of `slots` assemblies that holds `spent`. */
  predicate CanDischarge(batch: int, slots: int, core: seq<int>, spent: seq<int>) {
    slots - |spent| >= Min(batch, |core|)
  }

  /** The core and the spent buffer after `Discharge_`: the first batch of
      the core goes, in order, to the back of the spent buffer when there is
      room for it; otherwise nothing moves. */
  function Discharged(batch: int, slots: int, core: seq<int>, spent: seq<int>): (r: (seq<int>, seq<int>))
    requires batch >= 0
    ensures r.1 + r.0 == spent + core
    ensures CanDischarge(batch, slots, core, spent) ==> |r.0| == |core| - Min(batch, |core|)
    ensures !CanDischarge(batch, slots, core, spent) ==> r == (core, spent)
  {
    var n := Min(batch, |core|);
    if slots - |spent| < n then (core, spent)
    else
      assert core == core[..n] + core[n..];
      (core[n..], spent + core[..n])
  }

  /** The core and the spent buffer after the retired reactor's discharge
      loop, and whether it ended without a KeyError: `Discharge_` is
      repeated while the core is not empty and the spent buffer has room
      for the next batch; it stops at the first batch after whose move the
      bookkeeping meets a spent assembly without an out-commodity. */
  function DischargedAll(batch: int, slots: int, core: seq<int>, spent: seq<int>,
                         names: seq<string>, index: map<int, nat>): (r: (seq<int>, seq<int>, bool))
    requires batch > 0
    ensures r.1 + r.0 == spent + core && |r.0| <= |core|
    ensures r.2 ==> r.0 == [] || !CanDischarge(batch, slots, r.0, r.1)
    decreases |core|
  {
    if core == [] || !CanDischarge(batch, slots, core, spent) then (core, spent, true)
    else
      var (core1, spent1) := Discharged(batch, slots, core, spent);
      if names != [] && Group(spent1, names, index).None? then (core1, spent1, false)
      else DischargedAll(batch, slots, core1, spent1, names, index)
  }

  /** The discharge loop moves whole batches only when they fit, so a spent
      buffer within its `slots` stays within them. */
  /** One round of the discharge loop on a non-empty core. */
  lemma DischargedAllStep(batch: int, slots: int, core: seq<int>, spent: seq<int>, names: seq<string>,
                          index: map<int, nat>)
    requires batch > 0 && core != []
    ensures var (core1, spent1) := Discharged(batch, slots, core, spent);
            DischargedAll(batch, slots, core, spent, names, index) ==
            if !CanDischarge(batch, slots, core, spent) then (core, spent, true)
            else if names != [] && Group(spent1, names, index).None? then (core1, spent1, false)
            else DischargedAll(batch, slots, core1, spent1, names, index)
  {
  }

  lemma {:induction false} DischargedAllWithinSlots(batch: int, slots: int, core: seq<int>, spent: seq<int>,
                                                    names: seq<string>, index: map<int, nat>)
    requires batch > 0 && |spent| <= slots
    ensures |DischargedAll(batch, slots, core, spent, names, index).1| <= slots
    decreases |core|
  {
    if core != [] && CanDischarge(batch, slots, core, spent) {
      var (core1, spent1) := Discharged(batch, slots, core, spent);
      if !(names != [] && Group(spent1, names, index).None?) {
        DischargedAllWithinSlots(batch, slots, core1, spent1, names, index);
      }
    }
  }

  /** The core and the fresh buffer after `Load_`: the front of the fresh
      buffer fills, in order, the free slots of a core of `size`. */
  function Loaded(size: int, core: seq<int>, waiting: seq<int>): (r: (seq<int>, seq<int>))
    requires |core| <= size
    ensures r.0 + r.1 == core + waiting
    ensures |core| <= |r.0| <= size && (|r.0| == size || r.1 == [])
  {
    var n := Min(size - |core|, |waiting|);
    assert waiting == waiting[..n] + waiting[n..];
    (core + waiting[..n], waiting[n..])
  }

  /** Two buffers whose concatenation is unchanged, the second of which did
      not grow, have moved the front of the second to the back of the
      first. */
  lemma MovedPrefix(spent: seq<int>, core: seq<int>, spent': seq<int>, core': seq<int>)
    requires spent' + core' == spent + core && |core'| <= |core|
    ensures var m := |core| - |core'|;
            core' == core[m..] && spent' == spent + core[..m]
  {
    var m := |core| - |core'|;
    assert spent + core == (spent + core[..m]) + core[m..] by {
      assert core == core[..m] + core[m..];
    }
    assert spent' == (spent' + core')[..|spent'|];
    assert core' == (spent' + core')[|spent'|..];
  }

  /** `spent_inv.space()`: the capacity of a spent buffer less the mass of
      the `count` assemblies it holds, each of mass `size`. */
  function Space(capacity: real, size: real, count: nat): real {
    if count == 0 then capacity else Space(capacity, size, count - 1) - size
  }

  /** `spent_inv.space() >= assem_size`: one more assembly fits. */
  predicate Room(capacity: real, size: real, count: nat) {
    Space(capacity, size, count) >= size
  }

  /** The retired reactor's move of fresh assemblies: the front of
      `waiting` goes to the back of `held` while `held` has room. */
  function MoveFresh(capacity: real, size: real, waiting: seq<int>, held: seq<int>): (seq<int>, seq<int>)
    decreases |waiting|
  {
    if waiting == [] || !Room(capacity, size, |held|) then (waiting, held)
    else MoveFresh(capacity, size, waiting[1..], held + [waiting[0]])
  }

  /** How many of `waiting` fresh assemblies fit, one after the other, into
      a spent buffer holding `held`. */
  function Movable(capacity: real, size: real, waiting: nat, held: nat): (n: nat)
    ensures n <= waiting
    ensures n < waiting ==> !Room(capacity, size, held + n)
    decreases waiting
  {
    if waiting == 0 || !Room(capacity, size, held) then 0 else 1 + Movable(capacity, size, waiting - 1, held + 1)
  }

  /** The move takes the longest prefix of the fresh assemblies that fits,
      in order, and leaves the rest. */
  lemma {:induction false} MoveFreshMoves(capacity: real, size: real, waiting: seq<int>, held: seq<int>)
    ensures var n := Movable(capacity, size, |waiting|, |held|);
            MoveFresh(capacity, size, waiting, held) == (waiting[n..], held + waiting[..n])
    decreases |waiting|
  {
    if waiting != [] && Room(capacity, size, |held|) {
      MoveFreshMoves(capacity, size, waiting[1..], held + [waiting[0]]);
      var n := Movable(capacity, size, |waiting|, |held|);
      assert n == 1 + Movable(capacity, size, |waiting[1..]|, |held + [waiting[0]]|);
      assert MoveFresh(capacity, size, waiting, held) == MoveFresh(capacity, size, waiting[1..], held + [waiting[0]]);
      assert waiting[1..][n - 1..] == waiting[n..];
      assert held + [waiting[0]] + waiting[1..][..n - 1] == held + waiting[..n];
    } else {
      assert waiting[0..] == waiting && held + waiting[..0] == held;
    }
  }

  /** After the move nothing is waiting or there is no room, and no
      assembly is lost or duplicated. */
  lemma MoveFreshStops(capacity: real, size: real, waiting: seq<int>, held: seq<int>)
    ensures var (w, h) := MoveFresh(capacity, size, waiting, held);
            (w == [] || !Room(capacity, size, |h|)) &&
            multiset(w) + multiset(h) == multiset(waiting) + multiset(held) && |h| >= |held|
  {
    MoveFreshMoves(capacity, size, waiting, held);
    var n := Movable(capacity, size, |waiting|, |held|);
    assert waiting == waiting[..n] + waiting[n..];
  }

  /** The loop of the retired `Tick` that moves fresh assemblies to the
      spent buffer while it has room. */
  method MoveWhileRoom(waiting: seq<int>, held: seq<int>, capacity: real, size: real)
      returns (waiting': seq<int>, held': seq<int>)
    ensures (waiting', held') == MoveFresh(capacity, size, waiting, held)
  {
    waiting', held' := waiting, held;
    while |waiting'| > 0 && Room(capacity, size, |held'|)
      invariant MoveFresh(capacity, size, waiting', held') == MoveFresh(capacity, size, waiting, held)
      decreases |waiting'|
    {
      held' := held' + [waiting'[0]];
      waiting' := waiting'[1..];
    }
  }

  /** The serving loop of `GetMatlTrades` on the popped lists `mats` and
      the index `idx`: each trade pops the back of its commodity's list and
      erases that assembly's index. */
  method ServeAll(ghost g: map<string, seq<int>>, mats: map<string, seq<int>>, idx: map<int, nat>,
                  trades: seq<string>)
      returns (left: map<string, seq<int>>, served: seq<int>, idx': map<int, nat>)
    requires Serviceable(g, trades) && mats == ReverseAll(g)
    ensures left == Remaining(g, trades) && served == Served(g, trades, |trades|)
    ensures idx' == idx - (set x | x in served)
  {
    left, served, idx' := mats, [], idx;
    assert left == RemainingAt(g, trades, 0);
    for i := 0 to |trades|
      invariant left == RemainingAt(g, trades, i)
      invariant served == Served(g, trades, i)
      invariant idx' == idx - (set x | x in served)
    {
      ServeStepMap(g, trades, i);
      var c := trades[i];
      var m := left[c][|left[c]| - 1];
      EraseOne(idx, served, m);
      left := left[c := left[c][..|left[c]| - 1]];
      served := served + [m];
      idx' := idx' - {m};
    }
  }

  /** The search of `IndexRes_` on a value of the index: the first
      in-commodity equal to `commod` is recorded for `id`. */
  method IndexIn(index: map<int, nat>, inCommods: seq<string>, id: int, commod: string)
      returns (index': map<int, nat>, r: Outcome)
    ensures commod !in inCommods ==> r == Fail(ValueError(UnsupportedIncommodMsg)) && index' == index
    ensures commod in inCommods ==> r == Pass && index' == index[id := FirstIndex(inCommods, commod)]
  {
    for i := 0 to |inCommods|
      invariant forall j :: 0 <= j < i ==> inCommods[j] != commod
    {
      if inCommods[i] == commod {
        return index[id := i], Pass;
      }
    }
    index', r := index, Fail(ValueError(UnsupportedIncommodMsg));
  }

  /** One delivery of `AcceptMatlTrades`'s loop: to the core while it has
      room, to the fresh buffer after. */
  method Place(toCore: seq<int>, toFresh: seq<int>, capacity: int, ids: seq<int>,
               ghost core0: seq<int>, ghost fresh0: seq<int>, ghost free: int, i: nat)
      returns (core': seq<int>, fresh': seq<int>)
    requires i < |ids| && free == capacity - |core0|
    requires toCore == core0 + ids[..CoreShare(i, free)]
    requires toFresh == fresh0 + ids[CoreShare(i, free)..i]
    ensures core' == core0 + ids[..CoreShare(i + 1, free)]
    ensures fresh' == fresh0 + ids[CoreShare(i + 1, free)..i + 1]
  {
    var share := CoreShare(i, free);
    if |toCore| < capacity {
      assert share == i && CoreShare(i + 1, free) == i + 1;
      assert ids[..i + 1] == ids[..i] + [ids[i]];
      core', fresh' := toCore + [ids[i]], toFresh;
    } else {
      assert CoreShare(i + 1, free) == share;
      assert ids[share..i + 1] == ids[share..i] + [ids[i]];
      core', fresh' := toCore, toFresh + [ids[i]];
    }
  }

  /** An assembly indexed as received on the i-th in-commodity leaves as
      the i-th out-commodity with the i-th out-recipe, and is a KeyError when
      there is no i-th entry; later indexing of other assemblies does not
      change that. */
  lemma IndexRoundTrip(index: map<int, nat>, id: int, inCommods: seq<string>, commod: string,
                       outNames: seq<string>, others: map<int, nat>)
    requires commod in inCommods
    requires id !in others
    ensures var i := FirstIndex(inCommods, commod);
            var after := index[id := i] + others;
            inCommods[IndexOf(after, id)] == commod &&
            NameOf(outNames, after, id) == if i < |outNames| then Some(outNames[i]) else None
  {
  }

  /** How many of the first `k` deliveries go to a core with `free` slots. */
  function CoreShare(k: nat, free: int): (n: nat)
    ensures n <= k
  {
    Max(0, Min(k, free))
  }

  /** The ids of the deliveries. */
  function IdsOf(responses: seq<Delivery>): (ids: seq<int>)
  {
    seq(|responses|, i requires 0 <= i < |responses| => responses[i].id)
  }

  /** The reversal loop of `PopSpent_`: `std::reverse` on every list, the
      commodities visited in ascending order. */
  method ReverseEach(m: map<string, seq<int>>) returns (r: map<string, seq<int>>)
    ensures r == ReverseAll(m)
  {
    r := m;
    var keys := m.Keys;
    while keys != {}
      invariant keys <= m.Keys && ReversedOutside(m, r, keys)
      decreases keys
    {
      LeastExists(keys);
      var c :| IsLeast(c, keys);
      ReverseOneMore(m, r, keys, c);
      r := r[c := Reverse(r[c])];
      keys := keys - {c};
    }
    ReversedAll(m, r);
  }

  /** `r` holds the lists of `m`, reversed except for the commodities
      still in `keys`. */
  ghost predicate ReversedOutside(m: map<string, seq<int>>, r: map<string, seq<int>>, keys: set<string>) {
    r.Keys == m.Keys && forall c :: c in r ==> r[c] == if c in keys then m[c] else Reverse(m[c])
  }

  lemma ReverseOneMore(m: map<string, seq<int>>, r: map<string, seq<int>>, keys: set<string>, c: string)
    requires ReversedOutside(m, r, keys) && keys <= m.Keys && c in keys
    ensures ReversedOutside(m, r[c := Reverse(r[c])], keys - {c})
  {
  }

  lemma ReversedAll(m: map<string, seq<int>>, r: map<string, seq<int>>)
    requires ReversedOutside(m, r, {})
    ensures r == ReverseAll(m)
  {
    assert forall c :: c in r ==> r[c] == ReverseAll(m)[c];
  }

  /** The loop of `PushSpent_` without the buffer: the lists reversed and
      concatenated, the commodities visited in ascending order as a
      `std::map` iterates them. */
  method FlattenEach(mats: map<string, seq<int>>) returns (pushed: seq<int>)
    ensures pushed == Flatten(SortedKeys(mats.Keys), mats)
  {
    var keys := mats.Keys;
    pushed := [];
    ghost var order: seq<string> := [];
    while keys != {}
      invariant keys <= mats.Keys
      invariant order + SortedKeys(keys) == SortedKeys(mats.Keys)
      invariant forall i :: 0 <= i < |order| ==> order[i] in mats
      invariant pushed == Flatten(order, mats)
      decreases keys
    {
      LeastExists(keys);
      var c :| IsLeast(c, keys);
      VisitLeast(order, keys, c, SortedKeys(mats.Keys));
      FlattenSnoc(order, c, mats);
      pushed := pushed + Reverse(mats[c]);
      order := order + [c];
      keys := keys - {c};
    }
    assert order == SortedKeys(mats.Keys);
  }

  /** Visiting the first remaining key moves it from the keys still to
      visit to the visited ones. */
  lemma VisitLeast(order: seq<string>, keys: set<string>, c: string, all: seq<string>)
    requires IsLeast(c, keys) && order + SortedKeys(keys) == all
    ensures (order + [c]) + SortedKeys(keys - {c}) == all
  {
    SortedKeysStep(keys, c);
    assert order + ([c] + SortedKeys(keys - {c})) == (order + [c]) + SortedKeys(keys - {c});
  }

  /** Visiting one more commodity appends its reversed list. */
  lemma FlattenSnoc(order: seq<string>, c: string, m: map<string, seq<int>>)
    requires c in m && forall i :: 0 <= i < |order| ==> order[i] in m
    ensures Flatten(order + [c], m) == Flatten(order, m) + Reverse(m[c])
  {
    assert (order + [c])[..|order|] == order;
  }
}
