/**
 * The generic document tree that the writers populate: the values a Jackson
 * `JsonNode` can hold. An object is kept as its members in insertion order,
 * as Jackson's `ObjectNode` keeps them (a `LinkedHashMap`).
 */
module JsonTree {
  import opened Wrappers

  datatype Json =
    | JNull
    | JBool(b: bool)
    | JNumber(n: real)
    | JString(s: string)
    | JArray(items: seq<Json>)
    | JObject(members: Members)

  /** The members of an object, in insertion order. */
  type Members = seq<(string, Json)>

  /** The keys of `e`, in order. */
  function Keys(e: Members): (ks: seq<string>)
    ensures |ks| == |e|
    ensures forall i :: 0 <= i < |e| ==> ks[i] == e[i].0
  {
    if e == [] then [] else [e[0].0] + Keys(e[1..])
  }

  /** The values of `e`, in order. */
  function Values(e: Members): (vs: seq<Json>)
    ensures |vs| == |e|
    ensures forall i :: 0 <= i < |e| ==> vs[i] == e[i].1
  {
    if e == [] then [] else [e[0].1] + Values(e[1..])
  }

  predicate Distinct(ks: seq<string>) {
    forall i, j :: 0 <= i < j < |ks| ==> ks[i] != ks[j]
  }

  /** A JSON object never holds the same key twice. */
  predicate UniqueKeys(e: Members) {
    Distinct(Keys(e))
  }

  /** The value stored under `k`, as `ObjectNode.get` finds it. */
  function Lookup(e: Members, k: string): (r: Option<Json>)
    ensures r.None? <==> k !in Keys(e)
    ensures r.Some? ==> (k, r.value) in e
  {
    if e == [] then None
    else if e[0].0 == k then Some(e[0].1)
    else Lookup(e[1..], k)
  }

  /** The value of the last member of `xs` whose key is `k`. */
  function LastValue(xs: Members, k: string): (r: Option<Json>)
    ensures r.None? <==> k !in Keys(xs)
    ensures r.Some? ==> (k, r.value) in xs
  {
    if xs == [] then None
    else if xs[|xs| - 1].0 == k then Some(xs[|xs| - 1].1)
    else
      var init := xs[..|xs| - 1];
      KeysSnoc(xs);
      var r := LastValue(init, k);
      assert r.Some? ==> (k, r.value) in xs by {
        if r.Some? {
          var j :| 0 <= j < |init| && init[j] == (k, r.value);
          assert xs[j] == init[j];
        }
      }
      r
  }

  lemma KeysSnoc(xs: Members)
    requires xs != []
    ensures Keys(xs) == Keys(xs[..|xs| - 1]) + [xs[|xs| - 1].0]
  {
    var ks := Keys(xs[..|xs| - 1]) + [xs[|xs| - 1].0];
    assert |Keys(xs)| == |ks|;
    forall i | 0 <= i < |xs| ensures Keys(xs)[i] == ks[i] {
      if i < |xs| - 1 {
        assert ks[i] == xs[..|xs| - 1][i].0;
      }
    }
  }

  /**
   * `ObjectNode.put`, `putObject` and `putArray`: a key already present keeps
   * its position and gets the new value; a new key is appended at the end.
   */
  function Put(e: Members, k: string, v: Json): (r: Members)
    ensures k !in Keys(e) ==> r == e + [(k, v)]
  {
    if e == [] then [(k, v)]
    else if e[0].0 == k then [(k, v)] + e[1..]
    else [e[0]] + Put(e[1..], k, v)
  }

  /** A put keeps the order of the keys, and appends a key that is new. */
  lemma {:induction false} PutKeys(e: Members, k: string, v: Json)
    ensures Keys(Put(e, k, v)) == if k in Keys(e) then Keys(e) else Keys(e) + [k]
  {
    if e == [] {
    } else if e[0].0 == k {
      assert Keys([(k, v)] + e[1..]) == [k] + Keys(e[1..]);
    } else {
      PutKeys(e[1..], k, v);
      assert Keys([e[0]] + Put(e[1..], k, v)) == [e[0].0] + Keys(Put(e[1..], k, v));
    }
  }

  /** After a put, `k` holds `v` and every other key keeps its value. */
  lemma {:induction false} PutLookup(e: Members, k: string, v: Json, k': string)
    ensures Lookup(Put(e, k, v), k') == if k' == k then Some(v) else Lookup(e, k')
  {
    if e != [] && e[0].0 != k {
      PutLookup(e[1..], k, v, k');
    }
  }

  /** A put never duplicates a key. */
  lemma PutUnique(e: Members, k: string, v: Json)
    requires UniqueKeys(e)
    ensures UniqueKeys(Put(e, k, v))
  {
    PutKeys(e, k, v);
    if k !in Keys(e) {
      assert Distinct(Keys(e) + [k]);
    }
  }

  /** `Put` when there is a value, and no change when there is none. */
  function PutIfSome(e: Members, k: string, v: Option<Json>): Members {
    if v.Some? then Put(e, k, v.value) else e
  }

  /** The members of `xs` put one after another, first to last. */
  function PutAll(e: Members, xs: Members): (r: Members)
    ensures UniqueKeys(e) ==> UniqueKeys(r)
    decreases |xs|
  {
    if xs == [] then e
    else
      var before := PutAll(e, xs[..|xs| - 1]);
      assert UniqueKeys(before) ==> UniqueKeys(Put(before, xs[|xs| - 1].0, xs[|xs| - 1].1)) by {
        if UniqueKeys(before) { PutUnique(before, xs[|xs| - 1].0, xs[|xs| - 1].1); }
      }
      Put(before, xs[|xs| - 1].0, xs[|xs| - 1].1)
  }

  lemma KeysAppend(a: Members, b: Members)
    ensures Keys(a + b) == Keys(a) + Keys(b)
  {
  }

  /** Putting the same member twice leaves the object as putting it once. */
  lemma {:induction false} PutIdempotent(e: Members, k: string, v: Json)
    ensures Put(Put(e, k, v), k, v) == Put(e, k, v)
  {
    if e != [] && e[0].0 != k {
      PutIdempotent(e[1..], k, v);
    }
  }

  /** The last put wins: a key of `xs` holds its last value there, every other key keeps its value. */
  lemma {:induction false} PutAllLookup(e: Members, xs: Members, k: string)
    ensures Lookup(PutAll(e, xs), k) == if LastValue(xs, k).Some? then LastValue(xs, k) else Lookup(e, k)
    decreases |xs|
  {
    if xs != [] {
      PutAllLookup(e, xs[..|xs| - 1], k);
      PutLookup(PutAll(e, xs[..|xs| - 1]), xs[|xs| - 1].0, xs[|xs| - 1].1, k);
    }
  }

  /** Putting `a + b` is putting `a` and then `b`. */
  lemma {:induction false} PutAllAppend(e: Members, a: Members, b: Members)
    ensures PutAll(e, a + b) == PutAll(PutAll(e, a), b)
    decreases |b|
  {
    if b == [] {
      assert a + b == a;
    } else {
      assert (a + b)[..|a + b| - 1] == a + b[..|b| - 1];
      PutAllAppend(e, a, b[..|b| - 1]);
    }
  }

  lemma DistinctSnoc(ks: seq<string>, k: string)
    ensures Distinct(ks + [k]) <==> Distinct(ks) && k !in ks
  {
    if Distinct(ks + [k]) {
      assert ks == (ks + [k])[..|ks|];
      forall i | 0 <= i < |ks| ensures ks[i] != k {
        assert (ks + [k])[i] == ks[i] && (ks + [k])[|ks|] == k;
      }
    }
  }

  /** Members with keys new to `e` and to each other are appended in order. */
  lemma {:induction false} PutAllFresh(e: Members, xs: Members)
    requires UniqueKeys(e + xs)
    ensures PutAll(e, xs) == e + xs
    decreases |xs|
  {
    if xs != [] {
      var init, last := xs[..|xs| - 1], xs[|xs| - 1];
      assert xs == init + [last];
      assert e + xs == (e + init) + [last];
      KeysAppend(e + init, [last]);
      assert Keys(e + xs) == Keys(e + init) + [last.0];
      DistinctSnoc(Keys(e + init), last.0);
      PutAllFresh(e, init);
      assert PutAll(e, xs) == Put(e + init, last.0, last.1);
    }
  }

  /** The last value of `k` in `a + b` is its last value in `b`, if `b` has one. */
  lemma {:induction false} LastValueAppend(a: Members, b: Members, k: string)
    ensures LastValue(a + b, k) == if LastValue(b, k).Some? then LastValue(b, k) else LastValue(a, k)
    decreases |b|
  {
    if b == [] {
      assert a + b == a;
    } else {
      assert (a + b)[..|a + b| - 1] == a + b[..|b| - 1];
      LastValueAppend(a, b[..|b| - 1], k);
    }
  }

  /** The slots of an object under construction: each key with its value, or `None` when the value is null. */
  type Slots = seq<(string, Option<Json>)>

  /** The keys of the slots, in order. */
  function Names(s: Slots): (ks: seq<string>)
    ensures |ks| == |s|
    ensures forall i :: 0 <= i < |s| ==> ks[i] == s[i].0
  {
    if s == [] then [] else [s[0].0] + Names(s[1..])
  }

  /** The slots that pair each key of `ks` with the value at the same position of `vs`. */
  function Zip(ks: seq<string>, vs: seq<Option<Json>>): (s: Slots)
    requires |ks| == |vs|
    ensures |s| == |ks|
  {
    seq(|ks|, i requires 0 <= i < |ks| => (ks[i], vs[i]))
  }

  lemma ZipNames(ks: seq<string>, vs: seq<Option<Json>>)
    requires |ks| == |vs|
    ensures Names(Zip(ks, vs)) == ks
  {
  }

  /** The members that setting each slot in turn yields: the present ones, in slot order. */
  function Present(s: Slots): Members
    decreases |s|
  {
    if s == [] then []
    else (if s[0].1.Some? then [(s[0].0, s[0].1.value)] else []) + Present(s[1..])
  }

  /** `a` is `b` with some elements left out, the rest kept in order. */
  predicate Subsequence<T(==)>(a: seq<T>, b: seq<T>)
    decreases |b|
  {
    if a == [] then true
    else if b == [] then false
    else (a[0] == b[0] && Subsequence(a[1..], b[1..])) || Subsequence(a, b[1..])
  }

  lemma {:induction false} SubsequenceIn<T>(a: seq<T>, b: seq<T>, x: T)
    requires Subsequence(a, b) && x in a
    ensures x in b
    decreases |b|
  {
    if a[0] == b[0] && Subsequence(a[1..], b[1..]) {
      if x != a[0] {
        SubsequenceIn(a[1..], b[1..], x);
      }
    } else {
      SubsequenceIn(a, b[1..], x);
    }
  }

  /** Leaving elements out of a list without repetitions gives a list without repetitions. */
  lemma {:induction false} SubsequenceDistinct(a: seq<string>, b: seq<string>)
    requires Subsequence(a, b) && Distinct(b)
    ensures Distinct(a)
    decreases |b|
  {
    if a != [] {
      assert Distinct(b[1..]) by {
        forall i, j | 0 <= i < j < |b[1..]| ensures b[1..][i] != b[1..][j] {
          assert b[1..][i] == b[i + 1] && b[1..][j] == b[j + 1];
        }
      }
      if a[0] == b[0] && Subsequence(a[1..], b[1..]) {
        SubsequenceDistinct(a[1..], b[1..]);
        forall j | 0 < j < |a| ensures a[0] != a[j] {
          assert a[j] in a[1..];
          SubsequenceIn(a[1..], b[1..], a[j]);
          var q :| 0 <= q < |b[1..]| && b[1..][q] == a[j];
          assert b[q + 1] == a[j];
        }
      } else {
        SubsequenceDistinct(a, b[1..]);
      }
    }
  }

  /** The present members keep the order of the slots. */
  lemma {:induction false} PresentInOrder(s: Slots)
    ensures Subsequence(Keys(Present(s)), Names(s))
    decreases |s|
  {
    if s != [] {
      PresentInOrder(s[1..]);
      var rest := Present(s[1..]);
      if s[0].1.Some? {
        assert Keys(Present(s)) == [s[0].0] + Keys(rest);
        assert Keys(Present(s))[1..] == Keys(rest);
      } else {
        assert Present(s) == rest;
        if Keys(rest) != [] {
          assert Names(s)[1..] == Names(s[1..]);
        }
      }
    }
  }

  /** A key is set exactly when some slot carries it with a value. */
  lemma {:induction false} PresentKeys(s: Slots, k: string)
    ensures k in Keys(Present(s)) <==> exists i :: 0 <= i < |s| && s[i].0 == k && s[i].1.Some?
    decreases |s|
  {
    if s != [] {
      PresentKeys(s[1..], k);
      KeysAppend(if s[0].1.Some? then [(s[0].0, s[0].1.value)] else [], Present(s[1..]));
      if exists i :: 0 <= i < |s[1..]| && s[1..][i].0 == k && s[1..][i].1.Some? {
        var i :| 0 <= i < |s[1..]| && s[1..][i].0 == k && s[1..][i].1.Some?;
        assert s[i + 1] == s[1..][i];
      }
      if exists i :: 0 <= i < |s| && s[i].0 == k && s[i].1.Some? {
        var i :| 0 <= i < |s| && s[i].0 == k && s[i].1.Some?;
        if i > 0 {
          assert s[1..][i - 1] == s[i];
        }
      }
    }
  }

  /** A list without repetitions: its tail has none either, and does not hold its head. */
  lemma DistinctTail(ks: seq<string>)
    requires Distinct(ks) && ks != []
    ensures Distinct(ks[1..]) && ks[0] !in ks[1..]
  {
    assert forall p :: 0 <= p < |ks[1..]| ==> ks[1..][p] == ks[p + 1];
  }

  /** A key that no slot carries is never set. */
  lemma PresentUnknown(s: Slots, k: string)
    requires k !in Names(s)
    ensures k !in Keys(Present(s))
  {
    PresentInOrder(s);
    if k in Keys(Present(s)) {
      SubsequenceIn(Keys(Present(s)), Names(s), k);
    }
  }

  /** The first slot's key holds its value, or is absent when the value is null and no later slot carries the key. */
  lemma PresentLookupFirst(s: Slots)
    requires s != [] && s[0].0 !in Names(s[1..])
    ensures Lookup(Present(s), s[0].0) == s[0].1
  {
    var head := if s[0].1.Some? then [(s[0].0, s[0].1.value)] else [];
    assert Present(s) == head + Present(s[1..]);
    if s[0].1.None? {
      PresentUnknown(s[1..], s[0].0);
      assert head + Present(s[1..]) == Present(s[1..]);
    }
  }

  /** With distinct keys, each slot's key holds its value, or is absent when the value is null. */
  lemma {:induction false} PresentLookup(s: Slots, i: nat)
    requires Distinct(Names(s)) && i < |s|
    ensures Lookup(Present(s), s[i].0) == s[i].1
    decreases |s|
  {
    assert Names(s)[1..] == Names(s[1..]);
    DistinctTail(Names(s));
    if i == 0 {
      PresentLookupFirst(s);
    } else {
      var head := if s[0].1.Some? then [(s[0].0, s[0].1.value)] else [];
      assert Present(s) == head + Present(s[1..]);
      assert s[1..][i - 1] == s[i];
      assert Names(s)[0] != Names(s)[i];
      PresentLookup(s[1..], i - 1);
      LookupSkip(head, Present(s[1..]), s[i].0);
    }
  }

  /** Looking a key up past members that do not carry it. */
  lemma {:induction false} LookupSkip(a: Members, b: Members, k: string)
    requires k !in Keys(a)
    ensures Lookup(a + b, k) == Lookup(b, k)
    decreases |a|
  {
    if a != [] {
      assert (a + b)[0] == a[0] && Keys(a)[0] == a[0].0;
      assert (a + b)[1..] == a[1..] + b;
      assert Keys(a)[1..] == Keys(a[1..]);
      LookupSkip(a[1..], b, k);
      assert Lookup(a + b, k) == Lookup(a[1..] + b, k);
    } else {
      assert a + b == b;
    }
  }

  /** Setting a slot after the others appends its member, provided its key is new. */
  lemma {:induction false} PresentSnoc(s: Slots, k: string, v: Option<Json>)
    requires k !in Keys(Present(s))
    ensures Present(s + [(k, v)]) == PutIfSome(Present(s), k, v)
    decreases |s|
  {
    if s == [] {
      assert Present([(k, v)]) == (if v.Some? then [(k, v.value)] else []) + Present([]);
    } else {
      var head := if s[0].1.Some? then [(s[0].0, s[0].1.value)] else [];
      assert (s + [(k, v)])[1..] == s[1..] + [(k, v)];
      KeysAppend(head, Present(s[1..]));
      PresentSnoc(s[1..], k, v);
      assert Present(s + [(k, v)]) == head + Present(s[1..] + [(k, v)]);
    }
  }

  /** The setters called one after another: a slot with a value is put, a slot without one changes nothing. */
  function SetAll(e: Members, s: Slots): Members
    decreases |s|
  {
    if s == [] then e else SetAll(PutIfSome(e, s[0].0, s[0].1), s[1..])
  }

  /** Calling the setters from slot `i` on is calling the one for slot `i`, then those from the next slot on. */
  lemma SetAllStep(e: Members, s: Slots, i: nat)
    requires i < |s|
    ensures SetAll(e, s[i..]) == SetAll(PutIfSome(e, s[i].0, s[i].1), s[i + 1..])
  {
    assert s[i..][1..] == s[i + 1..];
  }

  /** Calling the setters puts exactly the present members, in slot order. */
  lemma {:induction false} SetAllPresent(e: Members, s: Slots)
    ensures SetAll(e, s) == PutAll(e, Present(s))
    decreases |s|
  {
    if s != [] {
      var head := if s[0].1.Some? then [(s[0].0, s[0].1.value)] else [];
      SetAllPresent(PutIfSome(e, s[0].0, s[0].1), s[1..]);
      PutAllAppend(e, head, Present(s[1..]));
      if head != [] {
        assert PutAll(e, head) == Put(PutAll(e, []), head[0].0, head[0].1);
      }
    }
  }

  /** When every slot has a value, every slot becomes a member, in order. */
  lemma {:induction false} PresentAll(s: Slots)
    requires forall i :: 0 <= i < |s| ==> s[i].1.Some?
    ensures |Present(s)| == |s|
    ensures forall i :: 0 <= i < |s| ==> Present(s)[i] == (s[i].0, s[i].1.value)
    decreases |s|
  {
    if s != [] {
      PresentAll(s[1..]);
      assert Present(s) == [(s[0].0, s[0].1.value)] + Present(s[1..]);
      forall i | 0 < i < |s| ensures Present(s)[i] == (s[i].0, s[i].1.value) {
        assert s[1..][i - 1] == s[i];
      }
    }
  }
}
