/** Values written one after the other, each where the one before it ends: the elements of a sequence
    and the members of a struct (CORBA 3.0.3, sections 15.3.2.1 and 15.3.2.5). */
module CdrLists {
  import opened Common
  import opened Cdr

  /** The end of the first n values, if `end` gives the end of a value written at a position. */
  function ListEnd<T>(end: (nat, T) -> nat, pos: nat, xs: seq<T>, n: nat): nat
    requires n <= |xs|
  {
    if n == 0 then pos else end(ListEnd(end, pos, xs, n - 1), xs[n - 1])
  }

  function ListLayout<T>(encode: (nat, T) -> Layout, pos: nat, xs: seq<T>, n: nat): Layout
    requires n <= |xs|
  {
    if n == 0 then []
    else
      var init := ListLayout(encode, pos, xs, n - 1);
      init + encode(pos + |init|, xs[n - 1])
  }

  function DecodeList<T>(read: nat -> Decoded<T>, pos: nat, n: nat): (d: Decoded<seq<T>>)
    ensures d.Decoded? ==> |d.value| == n
  {
    if n == 0 then Decoded([], pos)
    else
      match DecodeList(read, pos, n - 1)
      case NotEnoughMemory => NotEnoughMemory
      case Decoded(values, q) =>
        match read(q)
        case NotEnoughMemory => NotEnoughMemory
        case Decoded(v, r) => Decoded(values + [v], r)
  }

  lemma {:induction false} ListLength<T, L>(encode: (nat, T) -> Layout, end: (nat, L) -> nat,
                                            pos: nat, xs: seq<T>, ys: seq<L>, n: nat)
    requires n <= |xs| && n <= |ys|
    requires forall p: nat, i :: 0 <= i < n ==> p + |encode(p, xs[i])| == end(p, ys[i])
    ensures pos + |ListLayout(encode, pos, xs, n)| == ListEnd(end, pos, ys, n)
    decreases n
  {
    if n > 0 {
      ListLength(encode, end, pos, xs, ys, n - 1);
    }
  }

  lemma {:induction false} ListLayoutFromFront<T>(encode: (nat, T) -> Layout, pos: nat, xs: seq<T>, n: nat)
    requires 0 < n <= |xs|
    ensures var first := encode(pos, xs[0]);
            ListLayout(encode, pos, xs, n) == first + ListLayout(encode, pos + |first|, xs[1..], n - 1)
    decreases n
  {
    var first := encode(pos, xs[0]);
    if n == 1 {
      assert ListLayout(encode, pos, xs, 0) == [];
      assert [] + first == first + [] == first;
    } else {
      ListLayoutFromFront(encode, pos, xs, n - 1);
      var rest := ListLayout(encode, pos + |first|, xs[1..], n - 2);
      var last := encode(pos + |first + rest|, xs[n - 1]);
      assert (first + rest) + last == first + (rest + last);
    }
  }

  lemma ThreeElements<T>(body: Bytes, encode: (nat, T) -> Layout, pos: nat, xs: seq<T>, p1: nat, p2: nat)
    requires |xs| == 3 && p1 == pos + |encode(pos, xs[0])| && p2 == p1 + |encode(p1, xs[1])|
    ensures pos + |ListLayout(encode, pos, xs, 3)| == p2 + |encode(p2, xs[2])|
    ensures Matches(body, pos, ListLayout(encode, pos, xs, 3))
       <==> Matches(body, pos, encode(pos, xs[0])) && Matches(body, p1, encode(p1, xs[1]))
            && Matches(body, p2, encode(p2, xs[2]))
  {
    var a, b, c := encode(pos, xs[0]), encode(p1, xs[1]), encode(p2, xs[2]);
    assert ListLayout(encode, pos, xs, 1) == a by {
      assert ListLayout(encode, pos, xs, 0) == [];
    }
    assert ListLayout(encode, pos, xs, 2) == a + b;
    assert ListLayout(encode, pos, xs, 3) == (a + b) + c;
    MatchesConcatIff(body, pos, a + b, c);
    MatchesConcatIff(body, pos, a, b);
  }

  /** From the first one on, each value is at its place, and the next one at its end. */
  predicate ListAt<T>(at: (nat, T) -> bool, end: (nat, T) -> nat, limit: nat, pos: nat, xs: seq<T>)
    decreases |xs|
  {
    if xs == [] then pos <= limit else at(pos, xs[0]) && ListAt(at, end, limit, end(pos, xs[0]), xs[1..])
  }

  /** The layout of x is what stands where x is at its place, and its length leads to its end. */
  ghost predicate StandsAs<T>(body: Bytes, encode: (nat, T) -> Layout, at: (nat, T) -> bool, end: (nat, T) -> nat,
                              x: T)
  {
    forall p: nat :: (Matches(body, p, encode(p, x)) <==> at(p, x)) && p + |encode(p, x)| == end(p, x)
  }

  lemma {:induction false} ListAtIff<T>(body: Bytes, encode: (nat, T) -> Layout, at: (nat, T) -> bool,
                                        end: (nat, T) -> nat, pos: nat, xs: seq<T>)
    requires forall i :: 0 <= i < |xs| ==> StandsAs(body, encode, at, end, xs[i])
    ensures Matches(body, pos, ListLayout(encode, pos, xs, |xs|)) <==> ListAt(at, end, |body|, pos, xs)
    decreases |xs|
  {
    if xs != [] {
      var first := encode(pos, xs[0]);
      assert StandsAs(body, encode, at, end, xs[0]);
      ListLayoutFromFront(encode, pos, xs, |xs|);
      MatchesConcatIff(body, pos, first, ListLayout(encode, pos + |first|, xs[1..], |xs| - 1));
      ListAtIff(body, encode, at, end, pos + |first|, xs[1..]);
    }
  }

  lemma {:induction false} ListGrows<T>(encode: (nat, T) -> Layout, pos: nat, xs: seq<T>, i: nat, n: nat)
    requires i <= n <= |xs|
    ensures |ListLayout(encode, pos, xs, i)| <= |ListLayout(encode, pos, xs, n)|
    decreases n
  {
    if i < n {
      ListGrows(encode, pos, xs, i, n - 1);
    }
  }

  /** stages[i] is the layout from `pos` on once the first i values are written behind stages[0]. */
  ghost predicate Stages<T>(stages: seq<Layout>, encode: (nat, T) -> Layout, pos: nat, xs: seq<T>, n: nat)
    requires n <= |xs| && n < |stages|
  {
    n > 0 ==>
      Stages(stages, encode, pos, xs, n - 1)
      && stages[n] == stages[n - 1] + encode(pos + |stages[n - 1]|, xs[n - 1])
  }

  lemma {:induction false} StageAt<T>(stages: seq<Layout>, encode: (nat, T) -> Layout, pos: nat, xs: seq<T>, n: nat,
                                      i: nat)
    requires i < n <= |xs| && n < |stages| && Stages(stages, encode, pos, xs, n)
    ensures stages[i + 1] == stages[i] + encode(pos + |stages[i]|, xs[i])
    ensures |stages[i + 1]| <= |stages[n]|
    decreases n
  {
    if i < n - 1 {
      StageAt(stages, encode, pos, xs, n - 1, i);
    }
  }

  lemma {:induction false} LongerStages<T>(stages: seq<Layout>, next: Layout, encode: (nat, T) -> Layout, pos: nat,
                                           xs: seq<T>, n: nat)
    requires n <= |xs| && n < |stages| && Stages(stages, encode, pos, xs, n)
    ensures Stages(stages + [next], encode, pos, xs, n)
    decreases n
  {
    if n > 0 {
      LongerStages(stages, next, encode, pos, xs, n - 1);
    }
  }

  lemma {:induction false} StagesOfLayout<T>(head: Layout, encode: (nat, T) -> Layout, pos: nat, xs: seq<T>, n: nat)
    returns (stages: seq<Layout>)
    requires n <= |xs|
    ensures |stages| == n + 1 && stages[0] == head && Stages(stages, encode, pos, xs, n)
    ensures stages[n] == head + ListLayout(encode, pos + |head|, xs, n)
    decreases n
  {
    if n == 0 {
      return [head];
    }
    var shorter := StagesOfLayout(head, encode, pos, xs, n - 1);
    var next := head + ListLayout(encode, pos + |head|, xs, n);
    LongerStages(shorter, next, encode, pos, xs, n - 1);
    stages := shorter + [next];
  }

  lemma ListStep<T>(read: nat -> Decoded<T>, pos: nat, n: nat, values: seq<T>, q: nat, v: T, r: nat)
    requires DecodeList(read, pos, n) == Decoded(values, q) && read(q) == Decoded(v, r)
    ensures DecodeList(read, pos, n + 1) == Decoded(values + [v], r)
  {
  }

  lemma {:induction false} ListFails<T>(read: nat -> Decoded<T>, pos: nat, i: nat, values: seq<T>, q: nat, n: nat)
    requires i < n && DecodeList(read, pos, i) == Decoded(values, q) && read(q) == NotEnoughMemory
    ensures DecodeList(read, pos, n) == NotEnoughMemory
    decreases n
  {
    if i + 1 < n {
      ListFails(read, pos, i, values, q, n - 1);
    }
  }

  /** Wherever the layout of x stands, it is read as `image` and to its end. */
  ghost predicate IsReadAs<T(!new), V>(body: Body, encode: (nat, T) -> Layout, read: nat -> Decoded<V>,
                                       x: T, image: V)
  {
    forall p: nat :: Matches(body, p, encode(p, x)) ==> read(p) == Decoded(image, p + |encode(p, x)|)
  }

  lemma {:induction false} ListRoundTrip<T(!new), V>(body: Body, encode: (nat, T) -> Layout, read: nat -> Decoded<V>,
                                                     pos: nat, xs: seq<T>, images: seq<V>, n: nat)
    requires n <= |xs| && n <= |images|
    requires forall i :: 0 <= i < n ==> IsReadAs(body, encode, read, xs[i], images[i])
    requires Matches(body, pos, ListLayout(encode, pos, xs, n))
    ensures DecodeList(read, pos, n) == Decoded(images[..n], pos + |ListLayout(encode, pos, xs, n)|)
    decreases n
  {
    if n > 0 {
      var init := ListLayout(encode, pos, xs, n - 1);
      var q := pos + |init|;
      MatchesConcat(body, pos, init, encode(q, xs[n - 1]));
      ListRoundTrip(body, encode, read, pos, xs, images, n - 1);
      assert images[..n] == images[..n - 1] + [images[n - 1]];
      assert IsReadAs(body, encode, read, xs[n - 1], images[n - 1]);
      ListStep(read, pos, n - 1, images[..n - 1], q, images[n - 1], q + |encode(q, xs[n - 1])|);
    }
  }

  /** A reader of a longer input that agrees with `short` wherever that one succeeds. */
  ghost predicate Extends<T(!new)>(short: nat -> Decoded<T>, long: nat -> Decoded<T>, limit: nat) {
    forall q: nat :: short(q).Decoded? ==> long(q) == short(q) && short(q).end <= limit
  }

  lemma {:induction false} ListPrefix<T(!new)>(short: nat -> Decoded<T>, long: nat -> Decoded<T>, limit: nat,
                                               pos: nat, n: nat)
    requires Extends(short, long, limit) && DecodeList(short, pos, n).Decoded?
    ensures DecodeList(long, pos, n) == DecodeList(short, pos, n)
    ensures n > 0 || pos <= limit ==> DecodeList(long, pos, n).end <= limit
    decreases n
  {
    if n > 0 {
      ListPrefix(short, long, limit, pos, n - 1);
    }
  }
}
