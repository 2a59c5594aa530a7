/**
 The journey document of Nexus and the merge of a backup into it (`nexus/src/domain/journey.ts`). Texts are
 taken as already parsed; `lower` stands for `toLowerCase`.
 */
module JourneyModel {
  import opened Prelude

  datatype ActionStep = ActionStep(id: Text, action: Text, createdAt: Text)
  datatype Area = Personal | Stability
  datatype Goal = Goal(id: Text, title: Text, nextStep: Text, area: Area, done: bool)
  datatype Journey = Journey(paused: bool, steps: seq<ActionStep>, goals: seq<Goal>, interests: seq<Text>)

  const EMPTY_JOURNEY: Journey := Journey(false, [], [], [])

  const MAX_STEPS: nat := 10000
  const MAX_GOALS: nat := 100
  const MAX_INTERESTS: nat := 50

  type Lowering = Text -> Text

  // ----- Lists of items with an identifier. -----

  predicate UniqueBy<T>(items: seq<T>, key: T -> Text) {
    forall i, j :: 0 <= i < j < |items| ==> key(items[i]) != key(items[j])
  }

  /** `result.find((value) => value.id === item.id)`. */
  function Find<T>(items: seq<T>, key: T -> Text, k: Text): Option<T> {
    if items == [] then None
    else if key(items[0]) == k then Some(items[0])
    else Find(items[1..], key, k)
  }

  /** Appends the items of `b` whose identifier is new; `None` when an identifier is taken by a different item. */
  function Merge<T(==)>(a: seq<T>, b: seq<T>, key: T -> Text): Option<seq<T>>
    decreases b
  {
    if b == [] then Some(a)
    else
      match Find(a, key, key(b[0]))
      case None => Merge(a + [b[0]], b[1..], key)
      case Some(previous) => if previous == b[0] then Merge(a, b[1..], key) else None
  }

  method MergeLists<T(==)>(a: seq<T>, b: seq<T>, key: T -> Text) returns (merged: Option<seq<T>>)
    ensures merged == Merge(a, b, key)
  {
    var result := a;
    assert b[0..] == b;
    for i := 0 to |b|
      invariant Merge(result, b[i..], key) == Merge(a, b, key)
    {
      assert b[i..][0] == b[i] && b[i..][1..] == b[i + 1..];
      var previous := Find(result, key, key(b[i]));
      if previous.None? {
        result := result + [b[i]];
      } else if previous.value != b[i] {
        return None;
      }
    }
    return Some(result);
  }

  lemma {:induction false} FindMeaning<T>(items: seq<T>, key: T -> Text, k: Text)
    ensures match Find(items, key, k)
      case None => forall x :: x in items ==> key(x) != k
      case Some(x) => x in items && key(x) == k
  {
    if items != [] {
      FindMeaning(items[1..], key, k);
    }
  }

  lemma {:induction false} FindUnique<T>(items: seq<T>, key: T -> Text, x: T)
    requires UniqueBy(items, key) && x in items
    ensures Find(items, key, key(x)) == Some(x)
  {
    if items[0] != x {
      var i :| 0 <= i < |items| && items[i] == x;
      assert items[1..][i - 1] == x;
      assert key(items[0]) != key(items[i]);
      FindUnique(items[1..], key, x);
    }
  }

  lemma UniqueAppend<T>(items: seq<T>, key: T -> Text, x: T)
    requires UniqueBy(items, key) && forall y :: y in items ==> key(y) != key(x)
    ensures UniqueBy(items + [x], key)
  {
  }

  /** Merging loses nothing and invents nothing: the old list stays in front, every incoming item is there,
      and identifiers stay unique. */
  lemma {:induction false} MergeKeeps<T>(a: seq<T>, b: seq<T>, key: T -> Text)
    requires UniqueBy(a, key) && Merge(a, b, key).Some?
    ensures var m := Merge(a, b, key).value;
      && a <= m && UniqueBy(m, key)
      && (forall x :: x in m <==> x in a || x in b)
    decreases b
  {
    if b != [] {
      FindMeaning(a, key, key(b[0]));
      if Find(a, key, key(b[0])).None? {
        UniqueAppend(a, key, b[0]);
        MergeKeeps(a + [b[0]], b[1..], key);
      } else {
        MergeKeeps(a, b[1..], key);
      }
    }
  }

  /** With unique identifiers on both sides, merging fails exactly when one identifier names two different
      items. */
  lemma {:induction false} MergeFailsIff<T>(a: seq<T>, b: seq<T>, key: T -> Text)
    requires UniqueBy(a, key) && UniqueBy(b, key)
    ensures Merge(a, b, key).None? <==> exists x, y :: x in a && y in b && key(x) == key(y) && x != y
    decreases b
  {
    if b != [] {
      var y, rest := b[0], b[1..];
      assert forall i :: 0 <= i < |rest| ==> rest[i] == b[i + 1];
      FindMeaning(a, key, key(y));
      match Find(a, key, key(y))
      case None =>
        UniqueAppend(a, key, y);
        MergeFailsIff(a + [y], rest, key);
        assert forall z :: z in rest ==> key(z) != key(y);
        assert forall z :: z in b <==> z == y || z in rest;
        assert forall z :: z in a + [y] <==> z in a || z == y;
      case Some(previous) =>
        if previous == y {
          MergeFailsIff(a, rest, key);
          forall x | x in a && key(x) == key(y)
            ensures x == y
          {
            FindUnique(a, key, x);
          }
          assert forall z :: z in b <==> z == y || z in rest;
        }
    }
  }

  /** Merging what is already there changes nothing. */
  lemma {:induction false} MergeAbsorbs<T>(m: seq<T>, b: seq<T>, key: T -> Text)
    requires UniqueBy(m, key) && forall x :: x in b ==> x in m
    ensures Merge(m, b, key) == Some(m)
    decreases b
  {
    if b != [] {
      FindUnique(m, key, b[0]);
      MergeAbsorbs(m, b[1..], key);
    }
  }

  // ----- Interests: a JavaScript `Map` from the lower-case text to the text. -----

  /** Entries in insertion order. */
  type Entries = seq<(Text, Text)>

  function Put(e: Entries, k: Text, v: Text): Entries {
    if e == [] then [(k, v)]
    else if e[0].0 == k then [(k, v)] + e[1..]
    else [e[0]] + Put(e[1..], k, v)
  }

  function PutAll(e: Entries, values: seq<Text>, lower: Lowering): Entries
    decreases values
  {
    if values == [] then e else PutAll(Put(e, lower(values[0]), values[0]), values[1..], lower)
  }

  function Values(e: Entries): seq<Text> {
    if e == [] then [] else [e[0].1] + Values(e[1..])
  }

  function MergeInterests(a: seq<Text>, b: seq<Text>, lower: Lowering): seq<Text> {
    Values(PutAll([], a + b, lower))
  }

  function KeysOf(e: Entries): seq<Text> {
    if e == [] then [] else [e[0].0] + KeysOf(e[1..])
  }

  /** The value under `k`, if any. */
  function Get(e: Entries, k: Text): Option<Text> {
    if e == [] then None else if e[0].0 == k then Some(e[0].1) else Get(e[1..], k)
  }

  /** The last text of `values` that falls under `k`. */
  function Latest(values: seq<Text>, k: Text, lower: Lowering): Option<Text> {
    if values == [] then None
    else
      var later := Latest(values[1..], k, lower);
      if later.Some? then later else if lower(values[0]) == k then Some(values[0]) else None
  }

  /** Every entry sits under the lower-case form of its value, and no key occurs twice. */
  ghost predicate Tidy(e: Entries, lower: Lowering) {
    && (forall i :: 0 <= i < |e| ==> e[i].0 == lower(e[i].1))
    && (forall i, j :: 0 <= i < j < |e| ==> e[i].0 != e[j].0)
  }

  lemma {:induction false} PutMeaning(e: Entries, k: Text, v: Text)
    ensures forall q :: Get(Put(e, k, v), q) == if q == k then Some(v) else Get(e, q)
    ensures KeysOf(Put(e, k, v)) == if Get(e, k).Some? then KeysOf(e) else KeysOf(e) + [k]
  {
    if e != [] {
      if e[0].0 == k {
        assert ([(k, v)] + e[1..])[1..] == e[1..];
      } else {
        PutMeaning(e[1..], k, v);
        assert ([e[0]] + Put(e[1..], k, v))[1..] == Put(e[1..], k, v);
        assert [e[0].0] + (KeysOf(e[1..]) + [k]) == KeysOf(e) + [k];
      }
    }
  }

  lemma {:induction false} PutTidy(e: Entries, v: Text, lower: Lowering)
    requires Tidy(e, lower)
    ensures Tidy(Put(e, lower(v), v), lower)
    ensures forall x :: x in Put(e, lower(v), v) ==> x in e || x == (lower(v), v)
  {
    if e != [] {
      var tail := e[1..];
      assert forall i :: 0 <= i < |tail| ==> tail[i] == e[i + 1];
      if e[0].0 != lower(v) {
        PutTidy(tail, v, lower);
        var rest := Put(tail, lower(v), v);
        forall x | x in rest
          ensures x.0 != e[0].0
        {
          if x in tail {
            var i :| 0 <= i < |tail| && tail[i] == x;
            assert e[0].0 != e[i + 1].0;
          }
        }
      }
    }
  }

  lemma {:induction false} PutAllTidy(e: Entries, values: seq<Text>, lower: Lowering)
    requires Tidy(e, lower)
    ensures Tidy(PutAll(e, values, lower), lower)
    decreases values
  {
    if values != [] {
      PutTidy(e, values[0], lower);
      PutAllTidy(Put(e, lower(values[0]), values[0]), values[1..], lower);
    }
  }

  /** Later texts win; keys already present keep their place. */
  lemma {:induction false} PutAllMeaning(e: Entries, values: seq<Text>, lower: Lowering, k: Text)
    ensures Get(PutAll(e, values, lower), k)
         == if Latest(values, k, lower).Some? then Latest(values, k, lower) else Get(e, k)
    decreases values
  {
    if values != [] {
      PutMeaning(e, lower(values[0]), values[0]);
      PutAllMeaning(Put(e, lower(values[0]), values[0]), values[1..], lower, k);
    }
  }

  lemma {:induction false} PutAllKeys(e: Entries, values: seq<Text>, lower: Lowering)
    requires forall v :: v in values ==> Get(e, lower(v)).Some?
    ensures KeysOf(PutAll(e, values, lower)) == KeysOf(e)
    decreases values
  {
    if values != [] {
      PutMeaning(e, lower(values[0]), values[0]);
      PutAllKeys(Put(e, lower(values[0]), values[0]), values[1..], lower);
    }
  }

  lemma {:induction false} PutAllConcat(e: Entries, a: seq<Text>, b: seq<Text>, lower: Lowering)
    ensures PutAll(e, a + b, lower) == PutAll(PutAll(e, a, lower), b, lower)
    decreases a
  {
    if a == [] {
      assert a + b == b;
    } else {
      assert (a + b)[0] == a[0] && (a + b)[1..] == a[1..] + b;
      PutAllConcat(Put(e, lower(a[0]), a[0]), a[1..], b, lower);
    }
  }

  lemma {:induction false} PutNew(e: Entries, k: Text, v: Text)
    requires forall i :: 0 <= i < |e| ==> e[i].0 != k
    ensures Put(e, k, v) == e + [(k, v)]
  {
    if e != [] {
      PutNew(e[1..], k, v);
      assert [e[0]] + (e[1..] + [(k, v)]) == e + [(k, v)];
    }
  }

  /** Feeding the values of a tidy map back in rebuilds it. */
  lemma {:induction false} Rebuild(done: Entries, e: Entries, lower: Lowering)
    requires Tidy(done + e, lower)
    ensures PutAll(done, Values(e), lower) == done + e
    decreases e
  {
    if e == [] {
      assert done + e == done;
    } else {
      var k, v := e[0].0, e[0].1;
      assert (done + e)[|done|] == e[0];
      forall i | 0 <= i < |done|
        ensures done[i].0 != k
      {
        assert (done + e)[i] == done[i] && (done + e)[i].0 != (done + e)[|done|].0;
      }
      PutNew(done, k, v);
      assert done + [e[0]] + e[1..] == done + e;
      assert Values(e)[1..] == Values(e[1..]);
      Rebuild(done + [e[0]], e[1..], lower);
    }
  }

  /** Same keys in the same places and same value under each key: the same map. */
  lemma {:induction false} SameEntries(e: Entries, f: Entries)
    requires KeysOf(e) == KeysOf(f)
    requires forall i, j :: 0 <= i < j < |e| ==> e[i].0 != e[j].0
    requires forall i :: 0 <= i < |e| ==> Get(e, e[i].0) == Get(f, e[i].0)
    ensures e == f
  {
    KeysLength(e);
    KeysLength(f);
    if e != [] {
      assert KeysOf(e)[0] == e[0].0 && KeysOf(f)[0] == f[0].0;
      assert KeysOf(e)[1..] == KeysOf(e[1..]) && KeysOf(f)[1..] == KeysOf(f[1..]);
      assert Get(e, e[0].0) == Some(e[0].1) && Get(f, e[0].0) == Some(f[0].1);
      forall i | 0 <= i < |e[1..]|
        ensures Get(e[1..], e[1..][i].0) == Get(f[1..], e[1..][i].0)
      {
        assert e[1..][i] == e[i + 1] && e[0].0 != e[i + 1].0;
      }
      assert forall i :: 0 <= i < |e[1..]| ==> e[1..][i] == e[i + 1];
      SameEntries(e[1..], f[1..]);
      assert e == [e[0]] + e[1..] && f == [f[0]] + f[1..];
    }
  }

  lemma {:induction false} KeysLength(e: Entries)
    ensures |KeysOf(e)| == |e|
  {
    if e != [] {
      KeysLength(e[1..]);
    }
  }

  /** Putting the last batch in again changes nothing. */
  lemma PutAgain(e: Entries, b: seq<Text>, lower: Lowering)
    requires Tidy(e, lower)
    ensures PutAll(PutAll(e, b, lower), b, lower) == PutAll(e, b, lower)
  {
    var once := PutAll(e, b, lower);
    var twice := PutAll(once, b, lower);
    PutAllTidy(e, b, lower);
    forall v | v in b
      ensures Get(once, lower(v)).Some?
    {
      PutAllMeaning(e, b, lower, lower(v));
      LatestOf(b, v, lower);
    }
    PutAllKeys(once, b, lower);
    forall i | 0 <= i < |once|
      ensures Get(once, once[i].0) == Get(twice, once[i].0)
    {
      PutAllMeaning(e, b, lower, once[i].0);
      PutAllMeaning(once, b, lower, once[i].0);
    }
    SameEntries(once, twice);
  }

  lemma {:induction false} LatestOf(values: seq<Text>, v: Text, lower: Lowering)
    requires v in values
    ensures Latest(values, lower(v), lower).Some?
  {
    if values[0] != v {
      LatestOf(values[1..], v, lower);
    }
  }

  lemma {:induction false} ValuesOf(e: Entries, lower: Lowering, v: Text)
    requires Tidy(e, lower)
    ensures v in Values(e) <==> Get(e, lower(v)) == Some(v)
  {
    if e != [] {
      assert forall i :: 0 <= i < |e[1..]| ==> e[1..][i] == e[i + 1];
      ValuesOf(e[1..], lower, v);
      if lower(v) == e[0].0 {
        AbsentKey(e[1..], e[0].0);
      }
    }
  }

  lemma {:induction false} AbsentKey(e: Entries, k: Text)
    requires forall i :: 0 <= i < |e| ==> e[i].0 != k
    ensures Get(e, k).None?
  {
    if e != [] {
      AbsentKey(e[1..], k);
    }
  }

  /** The merged interests are, for each spelling up to case, the last one given. */
  lemma MergedInterests(a: seq<Text>, b: seq<Text>, lower: Lowering, v: Text)
    ensures v in MergeInterests(a, b, lower) <==> Latest(a + b, lower(v), lower) == Some(v)
  {
    var none: Entries := [];
    PutAllTidy(none, a + b, lower);
    ValuesOf(PutAll(none, a + b, lower), lower, v);
    PutAllMeaning(none, a + b, lower, lower(v));
  }

  lemma MergeInterestsIdempotent(a: seq<Text>, b: seq<Text>, lower: Lowering)
    ensures var m := MergeInterests(a, b, lower); MergeInterests(m, b, lower) == m
  {
    var none: Entries := [];
    var once := PutAll(none, a + b, lower);
    PutAllConcat(none, a, b, lower);
    PutAllTidy(none, a, lower);
    PutAllTidy(none, a + b, lower);
    assert none + once == once;
    Rebuild(none, once, lower);
    PutAllConcat(none, Values(once), b, lower);
    PutAgain(PutAll(none, a, lower), b, lower);
  }

  // ----- The whole journey. -----

  /** What `parseJourney` demands beyond the shape of each item. */
  predicate Parses(j: Journey, lower: Lowering) {
    && |j.steps| <= MAX_STEPS && UniqueBy(j.steps, (s: ActionStep) => s.id)
    && |j.goals| <= MAX_GOALS && UniqueBy(j.goals, (g: Goal) => g.id)
    && |j.interests| <= MAX_INTERESTS && UniqueBy(j.interests, lower)
  }

  /** `mergeJourney`: `None` for every error it throws. */
  function MergeJourney(current: Journey, incoming: Journey, lower: Lowering): Option<Journey> {
    match Merge(current.steps, incoming.steps, (s: ActionStep) => s.id)
    case None => None
    case Some(steps) =>
      match Merge(current.goals, incoming.goals, (g: Goal) => g.id)
      case None => None
      case Some(goals) =>
        var merged := current.(steps := steps, goals := goals,
                               interests := MergeInterests(current.interests, incoming.interests, lower));
        if Parses(merged, lower) then Some(merged) else None
  }

  /** The identifiers of a list. */
  function Names<T>(items: seq<T>, key: T -> Text): set<Text> {
    set i | 0 <= i < |items| :: key(items[i])
  }

  lemma {:induction false} NamesCount<T>(items: seq<T>, key: T -> Text)
    requires UniqueBy(items, key)
    ensures |Names(items, key)| == |items|
  {
    if items != [] {
      var front, last := items[..|items| - 1], items[|items| - 1];
      NamesCount(front, key);
      assert Names(items, key) == Names(front, key) + {key(last)} by {
        forall k | k in Names(items, key)
          ensures k in Names(front, key) + {key(last)}
        {
          var i :| 0 <= i < |items| && key(items[i]) == k;
          if i < |front| {
            assert front[i] == items[i];
          }
        }
        forall k | k in Names(front, key)
          ensures k in Names(items, key)
        {
          var i :| 0 <= i < |front| && key(front[i]) == k;
          assert front[i] == items[i];
        }
        assert items[|items| - 1] == last;
      }
      assert key(last) !in Names(front, key);
    }
  }

  /** One identifier stands for two different items. */
  ghost predicate Clash<T>(a: seq<T>, b: seq<T>, key: T -> Text) {
    exists x, y :: x in a && y in b && key(x) == key(y) && x != y
  }

  /** A merged list has one item for every identifier of either side. */
  lemma MergedCount<T>(a: seq<T>, b: seq<T>, key: T -> Text)
    requires UniqueBy(a, key) && Merge(a, b, key).Some?
    ensures UniqueBy(Merge(a, b, key).value, key)
    ensures |Merge(a, b, key).value| == |Names(a, key) + Names(b, key)|
  {
    var m := Merge(a, b, key).value;
    MergeKeeps(a, b, key);
    NamesCount(m, key);
    assert Names(m, key) == Names(a, key) + Names(b, key) by {
      forall k | k in Names(m, key)
        ensures k in Names(a, key) + Names(b, key)
      {
        var i :| 0 <= i < |m| && key(m[i]) == k;
        assert m[i] in m;
      }
      forall k | k in Names(a, key) + Names(b, key)
        ensures k in Names(m, key)
      {
        if k in Names(a, key) {
          var i :| 0 <= i < |a| && key(a[i]) == k;
          assert a[i] in m;
        } else {
          var i :| 0 <= i < |b| && key(b[i]) == k;
          assert b[i] in m;
        }
      }
    }
  }

  lemma {:induction false} ValuesAt(e: Entries, i: nat)
    requires i < |e|
    ensures |Values(e)| == |e| && Values(e)[i] == e[i].1
  {
    if i > 0 {
      ValuesAt(e[1..], i - 1);
    } else if |e| > 1 {
      ValuesAt(e[1..], 0);
    }
  }

  lemma {:induction false} SomeValueLatest(values: seq<Text>, k: Text, lower: Lowering)
    ensures Latest(values, k, lower).Some? <==> k in Names(values, lower)
    ensures Latest(values, k, lower).Some? ==> lower(Latest(values, k, lower).value) == k
  {
    if values != [] {
      SomeValueLatest(values[1..], k, lower);
      if k in Names(values, lower) {
        var i :| 0 <= i < |values| && lower(values[i]) == k;
        if i > 0 {
          assert values[1..][i - 1] == values[i];
        }
      }
      if k in Names(values[1..], lower) {
        var i :| 0 <= i < |values[1..]| && lower(values[1..][i]) == k;
        assert values[i + 1] == values[1..][i];
      }
    }
  }

  /** The merged interests have one text for every spelling up to case, and no two alike. */
  lemma MergedInterestsCount(a: seq<Text>, b: seq<Text>, lower: Lowering)
    ensures var m := MergeInterests(a, b, lower);
      UniqueBy(m, lower) && |m| == |Names(a, lower) + Names(b, lower)|
  {
    var none: Entries := [];
    var e := PutAll(none, a + b, lower);
    var m := Values(e);
    PutAllTidy(none, a + b, lower);
    forall i, j | 0 <= i < j < |m|
      ensures lower(m[i]) != lower(m[j])
    {
      if |e| > 0 {
        ValuesAt(e, 0);
        ValuesAt(e, i);
        ValuesAt(e, j);
      }
    }
    NamesCount(m, lower);
    forall k
      ensures k in Names(m, lower) <==> k in Names(a, lower) + Names(b, lower)
    {
      InterestNames(a, b, lower, k);
    }
    assert Names(m, lower) == Names(a, lower) + Names(b, lower);
  }

  lemma InterestNames(a: seq<Text>, b: seq<Text>, lower: Lowering, k: Text)
    ensures k in Names(MergeInterests(a, b, lower), lower) <==> k in Names(a, lower) + Names(b, lower)
  {
    var m := MergeInterests(a, b, lower);
    SomeValueLatest(a + b, k, lower);
    NamesConcat(a, b, lower, k);
    if k in Names(m, lower) {
      var i :| 0 <= i < |m| && lower(m[i]) == k;
      MergedInterests(a, b, lower, m[i]);
      assert m[i] in m;
    }
    if Latest(a + b, k, lower).Some? {
      var v := Latest(a + b, k, lower).value;
      MergedInterests(a, b, lower, v);
      var i :| 0 <= i < |m| && m[i] == v;
    }
  }

  lemma NamesConcat(a: seq<Text>, b: seq<Text>, lower: Lowering, k: Text)
    ensures k in Names(a + b, lower) <==> k in Names(a, lower) || k in Names(b, lower)
  {
    if k in Names(a, lower) {
      var i :| 0 <= i < |a| && lower(a[i]) == k;
      assert (a + b)[i] == a[i];
    }
    if k in Names(b, lower) {
      var i :| 0 <= i < |b| && lower(b[i]) == k;
      assert (a + b)[|a| + i] == b[i];
    }
    if k in Names(a + b, lower) {
      var i :| 0 <= i < |a + b| && lower((a + b)[i]) == k;
      if i < |a| {
        assert (a + b)[i] == a[i];
      } else {
        assert (a + b)[i] == b[i - |a|];
      }
    }
  }

  /** An import of a parsed backup into a parsed journey fails exactly when one identifier stands for two different
      steps or goals, or when together there are more than 10000 steps, 100 goals or 50 interests. */
  lemma ImportFailsIff(current: Journey, incoming: Journey, lower: Lowering)
    requires Parses(current, lower) && Parses(incoming, lower)
    ensures var stepKey, goalKey := (s: ActionStep) => s.id, (g: Goal) => g.id;
      MergeJourney(current, incoming, lower).None? <==>
        || Clash(current.steps, incoming.steps, stepKey) || Clash(current.goals, incoming.goals, goalKey)
        || |Names(current.steps, stepKey) + Names(incoming.steps, stepKey)| > 10000
        || |Names(current.goals, goalKey) + Names(incoming.goals, goalKey)| > 100
        || |Names(current.interests, lower) + Names(incoming.interests, lower)| > 50
  {
    var stepKey, goalKey := (s: ActionStep) => s.id, (g: Goal) => g.id;
    MergeFailsIff(current.steps, incoming.steps, stepKey);
    MergeFailsIff(current.goals, incoming.goals, goalKey);
    MergedInterestsCount(current.interests, incoming.interests, lower);
    var steps, goals := Merge(current.steps, incoming.steps, stepKey), Merge(current.goals, incoming.goals, goalKey);
    if steps.Some? {
      MergedCount(current.steps, incoming.steps, stepKey);
    }
    if goals.Some? {
      MergedCount(current.goals, incoming.goals, goalKey);
    }
    hide Merge, MergeInterests, Names;
  }

  /** Importing the same backup twice equals importing it once. */
  lemma ImportIsIdempotent(current: Journey, incoming: Journey, lower: Lowering)
    requires Parses(current, lower) && MergeJourney(current, incoming, lower).Some?
    ensures var m := MergeJourney(current, incoming, lower).value;
      MergeJourney(m, incoming, lower) == Some(m)
  {
    var m := MergeJourney(current, incoming, lower).value;
    var stepKey, goalKey := (s: ActionStep) => s.id, (g: Goal) => g.id;
    MergeKeeps(current.steps, incoming.steps, stepKey);
    MergeAbsorbs(m.steps, incoming.steps, stepKey);
    MergeKeeps(current.goals, incoming.goals, goalKey);
    MergeAbsorbs(m.goals, incoming.goals, goalKey);
    MergeInterestsIdempotent(current.interests, incoming.interests, lower);
  }

  /** An import keeps the pause, everything already there in its place, and everything imported. */
  lemma ImportKeepsEverything(current: Journey, incoming: Journey, lower: Lowering)
    requires Parses(current, lower) && MergeJourney(current, incoming, lower).Some?
    ensures var m := MergeJourney(current, incoming, lower).value;
      && m.paused == current.paused
      && current.steps <= m.steps && (forall s :: s in m.steps <==> s in current.steps || s in incoming.steps)
      && current.goals <= m.goals && (forall g :: g in m.goals <==> g in current.goals || g in incoming.goals)
      && (forall v :: v in m.interests <==> Latest(current.interests + incoming.interests, lower(v), lower) == Some(v))
      && Parses(m, lower)
  {
    MergeKeeps(current.steps, incoming.steps, (s: ActionStep) => s.id);
    MergeKeeps(current.goals, incoming.goals, (g: Goal) => g.id);
    forall v
      ensures v in MergeInterests(current.interests, incoming.interests, lower)
         <==> Latest(current.interests + incoming.interests, lower(v), lower) == Some(v)
    {
      MergedInterests(current.interests, incoming.interests, lower, v);
    }
  }
}
