/**
 A list of self-delimiting items on the wire, read front to back: the shape shared by TLS records,
 extensions and every list inside an extension.
 */
module Items {
  import opened Wire

  /**
   How one kind of item is read and written. `first` gives the item at the front of a buffer and
   the octets it takes; `ok` holds of the items that have an encoding.
   */
  datatype Codec<!T> = Codec(
    first: bytes -> Option<(T, nat)>,
    encode: T -> bytes,
    ok: T -> bool)

  /** What was read is what is written, and the other way round whatever follows. */
  ghost predicate Lawful<T(!new)>(c: Codec<T>) {
    && (forall buf: bytes {:trigger c.first(buf)} :: c.first(buf).Some? ==> TakenFrom(c, c.first(buf).value, buf))
    && (forall t: T, rest: bytes {:trigger c.first(c.encode(t) + rest)} ::
          c.ok(t) ==> c.first(c.encode(t) + rest) == Some((t, |c.encode(t)|)))
  }

  ghost predicate TakenFrom<T(!new)>(c: Codec<T>, item: (T, nat), buf: bytes) {
    0 < item.1 <= |buf| && c.ok(item.0) && c.encode(item.0) == buf[..item.1]
  }

  datatype Chopped<T> = Chopped(items: seq<T>, rest: bytes)

  /** All the items at the front of the buffer, and the octets that no longer hold one. */
  function Chop<T>(c: Codec<T>, buf: bytes): Chopped<T>
    decreases |buf|
  {
    match c.first(buf)
    case None => Chopped([], buf)
    case Some((t, n)) =>
      if 0 < n <= |buf| then
        var more := Chop(c, buf[n..]);
        Chopped([t] + more.items, more.rest)
      else Chopped([], buf)
  }

  ghost predicate AllOk<T(!new)>(c: Codec<T>, items: seq<T>) {
    forall i :: 0 <= i < |items| ==> c.ok(items[i])
  }

  function EncodeItems<T>(c: Codec<T>, items: seq<T>): bytes {
    if items == [] then [] else c.encode(items[0]) + EncodeItems(c, items[1..])
  }

  /** `whole` is `more` with `items` put in front. */
  ghost predicate Extends<T(!new)>(whole: Chopped<T>, items: seq<T>, more: Chopped<T>) {
    whole == Chopped(items + more.items, more.rest)
  }

  lemma Associate(a: bytes, b: bytes, c: bytes)
    ensures (a + b) + c == a + (b + c)
  {
  }

  lemma EncodeCons<T>(c: Codec<T>, t: T, items: seq<T>)
    ensures EncodeItems(c, [t] + items) == c.encode(t) + EncodeItems(c, items)
  {
  }

  lemma {:induction false} EncodeAppend<T(!new)>(c: Codec<T>, a: seq<T>, b: seq<T>)
    ensures EncodeItems(c, a + b) == EncodeItems(c, a) + EncodeItems(c, b)
  {
    if a == [] {
      assert a + b == b;
    } else {
      EncodeAppend(c, a[1..], b);
      assert a + b == [a[0]] + (a[1..] + b);
      EncodeCons(c, a[0], a[1..] + b);
      Associate(c.encode(a[0]), EncodeItems(c, a[1..]), EncodeItems(c, b));
    }
  }

  lemma ExtendsTransitive<T(!new)>(u: Chopped<T>, a: seq<T>, v: Chopped<T>, b: seq<T>, w: Chopped<T>)
    requires Extends(u, a, v) && Extends(v, b, w)
    ensures Extends(u, a + b, w)
  {
  }

  lemma EmptyHoldsNone<T(!new)>(c: Codec<T>)
    requires Lawful(c)
    ensures c.first([]).None?
  {
  }

  /** One round of a decoding loop: the item at the front of the cursor moves to the output. */
  lemma ChopTake<T(!new)>(c: Codec<T>, whole: Chopped<T>, out: seq<T>, cursor: bytes, item: T, n: nat)
    requires 0 < n <= |cursor| && c.first(cursor) == Some((item, n)) && Extends(whole, out, Chop(c, cursor))
    ensures Extends(whole, out + [item], Chop(c, cursor[n..]))
  {
  }

  /** The end of a decoding loop. */
  lemma ChopNone<T(!new)>(c: Codec<T>, whole: Chopped<T>, out: seq<T>, cursor: bytes)
    requires c.first(cursor).None? && Extends(whole, out, Chop(c, cursor))
    ensures whole == Chopped(out, cursor)
  {
  }

  lemma Rejoin<T>(c: Codec<T>, t: T, n: nat, more: Chopped<T>, buf: bytes)
    requires n <= |buf| && c.encode(t) == buf[..n] && EncodeItems(c, more.items) + more.rest == buf[n..]
    ensures EncodeItems(c, [t] + more.items) + more.rest == buf
  {
  }

  lemma {:induction false} ChopIsSound<T(!new)>(c: Codec<T>, buf: bytes)
    requires Lawful(c)
    ensures var p := Chop(c, buf);
            c.first(p.rest).None? && AllOk(c, p.items) && EncodeItems(c, p.items) + p.rest == buf
    decreases |buf|
  {
    if c.first(buf).None? {
    } else {
      var (t, n) := c.first(buf).value;
      assert TakenFrom(c, (t, n), buf);
      ChopIsSound(c, buf[n..]);
      var p := Chop(c, buf[n..]);
      assert Chop(c, buf) == Chopped([t] + p.items, p.rest);
      Rejoin(c, t, n, p, buf);
    }
  }

  lemma ChopCons<T(!new)>(c: Codec<T>, t: T, rest: bytes)
    requires Lawful(c) && c.ok(t)
    ensures Extends(Chop(c, c.encode(t) + rest), [t], Chop(c, rest))
  {
  }

  /** Whatever follows, the items that were encoded come back first. */
  lemma {:induction false} ChopEncoding<T(!new)>(c: Codec<T>, items: seq<T>, rest: bytes)
    requires Lawful(c) && AllOk(c, items)
    ensures Extends(Chop(c, EncodeItems(c, items) + rest), items, Chop(c, rest))
    decreases |items|
  {
    if items == [] {
      assert EncodeItems(c, items) + rest == rest;
    } else {
      var t, tail := items[0], EncodeItems(c, items[1..]) + rest;
      ChopEncoding(c, items[1..], rest);
      Associate(c.encode(t), EncodeItems(c, items[1..]), rest);
      ChopCons(c, t, tail);
      ExtendsTransitive(Chop(c, c.encode(t) + tail), [t], Chop(c, tail), items[1..], Chop(c, rest));
      assert [t] + items[1..] == items;
    }
  }

  /**
   Reading a list is exact: a buffer chops into `items` and `rest` if and only if it is their
   encoding followed by `rest`, and no further item can be read from `rest`.
   */
  lemma ChopIsExact<T(!new)>(c: Codec<T>, buf: bytes, items: seq<T>, rest: bytes)
    requires Lawful(c)
    ensures Chop(c, buf) == Chopped(items, rest) <==>
            AllOk(c, items) && buf == EncodeItems(c, items) + rest && c.first(rest).None?
  {
    ChopIsSound(c, buf);
    if AllOk(c, items) && buf == EncodeItems(c, items) + rest && c.first(rest).None? {
      ChopEncoding(c, items, rest);
      ChopNone(c, Chop(c, buf), items, rest);
    }
  }

  /** Cutting the buffer anywhere changes nothing: chop the first part, then what it left with the second. */
  lemma ChopComposes<T(!new)>(c: Codec<T>, a: bytes, b: bytes)
    requires Lawful(c)
    ensures Extends(Chop(c, a + b), Chop(c, a).items, Chop(c, Chop(c, a).rest + b))
  {
    ChopIsSound(c, a);
    var p := Chop(c, a);
    ChopEncoding(c, p.items, p.rest + b);
    Associate(EncodeItems(c, p.items), p.rest, b);
  }

  /** No list of whole items that starts the buffer is longer than the one that is read. */
  lemma ChopIsLongest<T(!new)>(c: Codec<T>, buf: bytes, items: seq<T>)
    requires Lawful(c) && AllOk(c, items) && EncodeItems(c, items) <= buf
    ensures items <= Chop(c, buf).items
  {
    var n := |EncodeItems(c, items)|;
    ChopEncoding(c, items, buf[n..]);
    assert buf == EncodeItems(c, items) + buf[n..];
  }

  /** Where reading stops: encoded items before, the remainder after. */
  lemma ChopSplits<T(!new)>(c: Codec<T>, buf: bytes) returns (k: nat)
    requires Lawful(c)
    ensures k == |buf| - |Chop(c, buf).rest| && k <= |buf| && buf[k..] == Chop(c, buf).rest
    ensures AllOk(c, Chop(c, buf).items) && EncodeItems(c, Chop(c, buf).items) == buf[..k]
    ensures c.first(Chop(c, buf).rest).None?
  {
    ChopIsSound(c, buf);
    k := |EncodeItems(c, Chop(c, buf).items)|;
  }
}
