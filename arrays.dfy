/**
 * The conditional conformance of `Array` to `Storable`: encoding maps the element
 * encoding over the array, decoding keeps the entries that decode (`compactMap`).
 */
module Arrays {
  import opened Wrappers
  import opened EncodedForm
  import opened Storables

  /** The slot an element's encoding occupies in an encoded array: `nil` becomes a null marker. */
  function Slot(e: Option<Encoded>): Encoded {
    match e
    case Some(form) => form
    case None => NullElement
  }

  /** `self.map({ $0.encode() })`. */
  function EncodeElements<T>(c: Storable<T>, xs: seq<T>): (es: seq<Encoded>)
    ensures |es| == |xs|
    ensures forall i {:trigger es[i]} :: 0 <= i < |xs| ==> es[i] == Slot(c.encode(xs[i]))
  {
    if xs == [] then [] else [Slot(c.encode(xs[0]))] + EncodeElements(c, xs[1..])
  }

  /** What `compactMap` keeps of one result: the value if present, nothing otherwise. */
  function Kept<B>(o: Option<B>): seq<B> {
    match o
    case Some(v) => [v]
    case None => []
  }

  /** Swift's `compactMap`: apply `f` to each entry in order and keep the results that are present. */
  function CompactMap<A, B>(f: A -> Option<B>, xs: seq<A>): (r: seq<B>)
    ensures |r| <= |xs|
  {
    if xs == [] then []
    else
      Kept(f(xs[0])) + CompactMap(f, xs[1..])
  }

  /** `r` holds the results of `f` at the positions `idx` of `xs`. */
  ghost predicate Picks<A, B>(f: A -> Option<B>, xs: seq<A>, r: seq<B>, idx: seq<nat>) {
    |idx| == |r| && forall k :: 0 <= k < |idx| ==> idx[k] < |xs| && f(xs[idx[k]]) == Some(r[k])
  }

  ghost predicate Increasing(idx: seq<nat>) {
    forall k, l :: 0 <= k < l < |idx| ==> idx[k] < idx[l]
  }

  /** Every position of `xs` where `f` succeeds is listed in `idx`. */
  ghost predicate Covers<A, B>(f: A -> Option<B>, xs: seq<A>, idx: seq<nat>) {
    forall i :: 0 <= i < |xs| && f(xs[i]).Some? ==> i in idx
  }

  /** `idx` lists, in increasing order, exactly the positions of `xs` where `f` succeeds, and `r` holds those results. */
  ghost predicate IsSelection<A, B>(f: A -> Option<B>, xs: seq<A>, r: seq<B>, idx: seq<nat>) {
    Picks(f, xs, r, idx) && Increasing(idx) && Covers(f, xs, idx)
  }

  /** Positions shifted one to the right, with position 0 in front when `keepHead` holds. */
  function Extend(keepHead: bool, rest: seq<nat>): (idx: seq<nat>)
    ensures |idx| == |rest| + (if keepHead then 1 else 0)
    ensures forall k :: 0 <= k < |rest| ==> idx[k + |idx| - |rest|] == rest[k] + 1
    ensures keepHead ==> idx[0] == 0
  {
    (if keepHead then [0] else []) + seq(|rest|, k requires 0 <= k < |rest| => rest[k] + 1)
  }

  lemma ExtendPicks<A, B>(f: A -> Option<B>, xs: seq<A>, r: seq<B>, rest: seq<nat>)
    requires xs != [] && Picks(f, xs[1..], r, rest)
    ensures Picks(f, xs, Kept(f(xs[0])) + r, Extend(f(xs[0]).Some?, rest))
  {
    var idx := Extend(f(xs[0]).Some?, rest);
    var r' := Kept(f(xs[0])) + r;
    var d := |idx| - |rest|;
    forall k | 0 <= k < |idx| ensures idx[k] < |xs| && f(xs[idx[k]]) == Some(r'[k]) {
      if k >= d {
        assert idx[k] == rest[k - d] + 1;
        assert xs[idx[k]] == xs[1..][rest[k - d]];
        assert r'[k] == r[k - d];
      }
    }
  }

  lemma ExtendIncreasing(keepHead: bool, rest: seq<nat>)
    requires Increasing(rest)
    ensures Increasing(Extend(keepHead, rest))
  {
    var shifted := seq(|rest|, k requires 0 <= k < |rest| => rest[k] + 1);
    assert Increasing(shifted) by {
      forall k, l | 0 <= k < l < |shifted| ensures shifted[k] < shifted[l] {
        assert rest[k] < rest[l];
      }
    }
    if keepHead {
      var idx := [0] + shifted;
      forall k, l | 0 <= k < l < |idx| ensures idx[k] < idx[l] {
        assert idx[l] == shifted[l - 1];
        if k > 0 { assert idx[k] == shifted[k - 1]; }
      }
      assert Extend(keepHead, rest) == idx;
    } else {
      assert Extend(keepHead, rest) == shifted;
    }
  }

  lemma ExtendCovers<A, B>(f: A -> Option<B>, xs: seq<A>, rest: seq<nat>)
    requires xs != [] && Covers(f, xs[1..], rest)
    ensures Covers(f, xs, Extend(f(xs[0]).Some?, rest))
  {
    var idx := Extend(f(xs[0]).Some?, rest);
    var d := |idx| - |rest|;
    forall i | 0 <= i < |xs| && f(xs[i]).Some? ensures i in idx {
      if i > 0 {
        assert xs[i] == xs[1..][i - 1];
        assert i - 1 in rest;
        var k :| 0 <= k < |rest| && rest[k] == i - 1;
        assert idx[k + d] == i;
      }
    }
  }

  /** `compactMap` keeps exactly the entries that succeed, in their original order, and drops the rest. */
  lemma {:induction false} CompactMapSelects<A, B>(f: A -> Option<B>, xs: seq<A>) returns (idx: seq<nat>)
    ensures IsSelection(f, xs, CompactMap(f, xs), idx)
  {
    if xs == [] {
      idx := [];
    } else {
      var rest := CompactMapSelects(f, xs[1..]);
      ExtendPicks(f, xs, CompactMap(f, xs[1..]), rest);
      ExtendIncreasing(f(xs[0]).Some?, rest);
      ExtendCovers(f, xs, rest);
      idx := Extend(f(xs[0]).Some?, rest);
    }
  }

  /** `compactMap` distributes over concatenation: one entry's fate does not depend on the others. */
  lemma {:induction false} CompactMapAppend<A, B>(f: A -> Option<B>, xs: seq<A>, ys: seq<A>)
    ensures CompactMap(f, xs + ys) == CompactMap(f, xs) + CompactMap(f, ys)
  {
    if xs == [] {
      assert xs + ys == ys;
    } else {
      assert (xs + ys)[0] == xs[0];
      assert (xs + ys)[1..] == xs[1..] + ys;
      CompactMapAppend(f, xs[1..], ys);
    }
  }

  /** When every entry succeeds nothing is dropped: the result has the input's length and its i-th entry comes from the i-th input. */
  lemma {:induction false} CompactMapAllPresent<A, B>(f: A -> Option<B>, xs: seq<A>)
    requires forall i :: 0 <= i < |xs| ==> f(xs[i]).Some?
    ensures |CompactMap(f, xs)| == |xs|
    ensures forall i :: 0 <= i < |xs| ==> CompactMap(f, xs)[i] == f(xs[i]).value
  {
    if xs != [] {
      assert forall i :: 1 <= i < |xs| ==> xs[i] == xs[1..][i - 1];
      CompactMapAllPresent(f, xs[1..]);
    }
  }

  function EncodeArray<T>(c: Storable<T>, xs: seq<T>): (r: Option<Encoded>)
    ensures r.Some? && r.value.ArrayValue?
    ensures r.value.items == EncodeElements(c, xs)
  {
    Some(ArrayValue(EncodeElements(c, xs)))
  }

  function DecodeArray<T>(c: Storable<T>, e: Encoded): (r: Option<seq<T>>)
    ensures r.Some? <==> e.ArrayValue?
    ensures e.ArrayValue? ==> r == Some(CompactMap(c.decode, e.items))
    ensures r.Some? ==> |r.value| <= |e.items|
  {
    match e
    case ArrayValue(items) => Some(CompactMap(c.decode, items))
    case _ => None
  }

  /**
   * The `Storable` conformance of `[T]`, built from that of `T`: an array whose elements all
   * round-trip round-trips, and only an array form decodes.
   */
  function ArrayStorable<T(!new)>(c: Storable<T>): (r: Storable<seq<T>>)
    ensures forall xs :: (forall i :: 0 <= i < |xs| ==> RoundTrip(c, xs[i])) ==> RoundTrip(r, xs)
    ensures forall e: Encoded :: r.decode(e).Some? <==> e.ArrayValue?
  {
    AllElementsRoundTrip(c);
    Storable(xs => EncodeArray(c, xs), e => DecodeArray(c, e))
  }

  /** On an array form, the decoded array keeps exactly the entries that decode, in their order. */
  lemma DecodeArraySelects<T>(c: Storable<T>, e: Encoded) returns (idx: seq<nat>)
    requires e.ArrayValue?
    ensures IsSelection(c.decode, e.items, DecodeArray(c, e).value, idx)
  {
    idx := CompactMapSelects(c.decode, e.items);
  }

  /** Decoding the encoding of an array whose elements all round-trip gives the array back. */
  lemma {:induction false} ElementsRoundTrip<T>(c: Storable<T>, xs: seq<T>)
    requires forall i :: 0 <= i < |xs| ==> RoundTrip(c, xs[i])
    ensures CompactMap(c.decode, EncodeElements(c, xs)) == xs
  {
    if xs != [] {
      var es := EncodeElements(c, xs);
      assert es[0] == c.encode(xs[0]).value;
      assert es[1..] == EncodeElements(c, xs[1..]);
      assert forall i :: 1 <= i < |xs| ==> xs[i] == xs[1..][i - 1];
      ElementsRoundTrip(c, xs[1..]);
    }
  }

  lemma AllElementsRoundTrip<T>(c: Storable<T>)
    ensures forall xs :: (forall i :: 0 <= i < |xs| ==> RoundTrip(c, xs[i])) ==> CompactMap(c.decode, EncodeElements(c, xs)) == xs
  {
    forall xs | forall i :: 0 <= i < |xs| ==> RoundTrip(c, xs[i])
      ensures CompactMap(c.decode, EncodeElements(c, xs)) == xs
    {
      ElementsRoundTrip(c, xs);
    }
  }

  /** Arrays of a lawful element type are lawful, so arrays of arrays are too. */
  lemma ArrayLawful<T(!new)>(c: Storable<T>)
    requires Lawful(c)
    ensures Lawful(ArrayStorable(c))
  {
    var r := ArrayStorable(c);
    forall xs: seq<T> ensures RoundTrip(r, xs) {
      assert forall i :: 0 <= i < |xs| ==> RoundTrip(c, xs[i]);
    }
  }

  /**
   * An entry the element type cannot decode, put in place of the i-th encoded element, is dropped
   * and nothing else is: the elements around it come back in order.
   */
  lemma DropAt<T>(c: Storable<T>, xs: seq<T>, i: nat, bad: Encoded)
    requires i < |xs| && c.decode(bad).None?
    requires forall j :: 0 <= j < |xs| && j != i ==> RoundTrip(c, xs[j])
    ensures CompactMap(c.decode, EncodeElements(c, xs)[i := bad]) == xs[..i] + xs[i + 1..]
  {
    var before, after := xs[..i], xs[i + 1..];
    var eb, ea := EncodeElements(c, before), EncodeElements(c, after);
    ReplaceAt(c, xs, i, bad);
    SkipFailure(c.decode, eb, bad, ea);
    SliceRoundTrips(c, xs, before, 0, i);
    SliceRoundTrips(c, xs, after, i + 1, i);
    calc {
      CompactMap(c.decode, EncodeElements(c, xs)[i := bad]);
      CompactMap(c.decode, eb + ([bad] + ea));
      CompactMap(c.decode, eb) + CompactMap(c.decode, ea);
      before + after;
    }
  }

  /** A failing entry between two runs of entries contributes nothing. */
  lemma SkipFailure<A, B>(f: A -> Option<B>, xs: seq<A>, bad: A, ys: seq<A>)
    requires f(bad).None?
    ensures CompactMap(f, xs + ([bad] + ys)) == CompactMap(f, xs) + CompactMap(f, ys)
  {
    CompactMapAppend(f, xs, [bad] + ys);
    assert ([bad] + ys)[1..] == ys;
  }

  /** A run of consecutive elements, starting at `lo` and avoiding position `i`, round-trips when every element but the i-th does. */
  lemma SliceRoundTrips<T>(c: Storable<T>, xs: seq<T>, piece: seq<T>, lo: nat, i: nat)
    requires lo + |piece| <= |xs| && (i < lo || lo + |piece| <= i)
    requires forall j :: 0 <= j < |piece| ==> piece[j] == xs[lo + j]
    requires forall j :: 0 <= j < |xs| && j != i ==> RoundTrip(c, xs[j])
    ensures CompactMap(c.decode, EncodeElements(c, piece)) == piece
  {
    forall j | 0 <= j < |piece| ensures RoundTrip(c, piece[j]) {
      assert piece[j] == xs[lo + j];
    }
    ElementsRoundTrip(c, piece);
  }

  lemma ReplaceAt<T>(c: Storable<T>, xs: seq<T>, i: nat, bad: Encoded)
    requires i < |xs|
    ensures EncodeElements(c, xs)[i := bad] == EncodeElements(c, xs[..i]) + ([bad] + EncodeElements(c, xs[i + 1..]))
  {
    var l := EncodeElements(c, xs)[i := bad];
    var eb, ea := EncodeElements(c, xs[..i]), EncodeElements(c, xs[i + 1..]);
    var r := eb + ([bad] + ea);
    forall j | 0 <= j < |l| ensures l[j] == r[j] {
      if j < i { assert xs[..i][j] == xs[j]; }
      else if j > i { assert xs[i + 1..][j - i - 1] == xs[j]; }
    }
  }

  /**
   * Partial corruption: replacing the i-th entry of an encoded array by a form the element type
   * cannot decode drops exactly that element; the others keep their order.
   */
  lemma CorruptEntryDropped<T>(c: Storable<T>, xs: seq<T>, i: nat, bad: Encoded)
    requires forall j :: 0 <= j < |xs| ==> RoundTrip(c, xs[j])
    requires i < |xs| && c.decode(bad).None?
    ensures DecodeArray(c, ArrayValue(EncodeElements(c, xs)[i := bad])) == Some(xs[..i] + xs[i + 1..])
    ensures |DecodeArray(c, ArrayValue(EncodeElements(c, xs)[i := bad])).value| == |xs| - 1
  {
    DropAt(c, xs, i, bad);
  }

  /**
   * Encoding never drops an element but decoding may: an element whose encoding fails leaves a
   * null marker in the array, which decoding skips when the element type rejects it.
   */
  lemma UnencodableElementDropped<T>(c: Storable<T>, xs: seq<T>, i: nat)
    requires i < |xs| && c.encode(xs[i]).None? && c.decode(NullElement).None?
    requires forall j :: 0 <= j < |xs| && j != i ==> RoundTrip(c, xs[j])
    ensures |EncodeArray(c, xs).value.items| == |xs|
    ensures DecodeArray(c, EncodeArray(c, xs).value) == Some(xs[..i] + xs[i + 1..])
  {
    DropAt(c, xs, i, NullElement);
    assert EncodeElements(c, xs)[i := NullElement] == EncodeElements(c, xs);
  }
}
