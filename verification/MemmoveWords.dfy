/** `_memmove_words`: an overlap-safe copy by 16-bit and aligned 32-bit accesses. */
module MemmoveWords {
  type Byte = b: nat | b < 256

  /** A load of `width` bytes from `s` and their store at `d`. */
  datatype Access = Access(d: nat, s: nat, width: nat)

  ghost predicate AccessOk(a: Access) {
    (a.width == 2 && a.d % 2 == 0 && a.s % 2 == 0) || (a.width == 4 && a.d % 4 == 0 && a.s % 4 == 0)
  }

  ghost function Stored(m: seq<Byte>, a: Access): seq<Byte> {
    if a.d + a.width <= |m| && a.s + a.width <= |m| then m[..a.d] + m[a.s..a.s + a.width] + m[a.d + a.width..] else m
  }

  lemma {:induction false} StoredBytes(o: seq<Byte>, a: Access, m: seq<Byte>)
    requires |m| == |o| && a.d + a.width <= |o| && a.s + a.width <= |o|
    requires forall i {:trigger m[i]} | 0 <= i < |o| :: m[i] == if a.d <= i < a.d + a.width then o[a.s + (i - a.d)] else o[i]
    ensures m == Stored(o, a)
  {
    var x, y, z := o[..a.d], o[a.s..a.s + a.width], o[a.d + a.width..];
    assert m[..a.d] == x;
    assert m[a.d..a.d + a.width] == y by {
      forall i | 0 <= i < a.width
        ensures m[a.d + i] == y[i]
      {
      }
    }
    assert m[a.d + a.width..] == z;
    assert m == m[..a.d] + m[a.d..a.d + a.width] + m[a.d + a.width..];
  }

  /** What the accesses make of the memory `m`. */
  ghost function Replay(m: seq<Byte>, log: seq<Access>): seq<Byte> {
    if log == [] then m else Stored(Replay(m, log[..|log| - 1]), log[|log| - 1])
  }

  /** How many accesses have this width. */
  ghost function OfWidth(log: seq<Access>, width: nat): nat {
    if log == [] then 0 else OfWidth(log[..|log| - 1], width) + (if log[|log| - 1].width == width then 1 else 0)
  }

  lemma {:induction false} OneMore(m: seq<Byte>, log: seq<Access>, a: Access, width: nat)
    ensures Replay(m, log + [a]) == Stored(Replay(m, log), a)
    ensures OfWidth(log + [a], width) == OfWidth(log, width) + (if a.width == width then 1 else 0)
  {
    assert (log + [a])[..|log|] == log;
  }

  ghost predicate MovedAt(o: seq<Byte>, dest: nat, src: nat, n: nat, m: seq<Byte>, i: int) {
    0 <= i < |o| && |m| == |o| && dest + n <= |o| && src + n <= |o| ==>
      m[i] == if dest <= i < dest + n then o[src + (i - dest)] else o[i]
  }

  /** `m` is `o` with the `n` bytes at `src` copied to `dest` as if all were read before any is written. */
  ghost predicate Moved(o: seq<Byte>, dest: nat, src: nat, n: nat, m: seq<Byte>) {
    && |m| == |o| && dest + n <= |o| && src + n <= |o|
    && forall i {:trigger MovedAt(o, dest, src, n, m, i)} :: MovedAt(o, dest, src, n, m, i)
  }

  /** That is, the destination ends equal to the original source, and no other byte changes. */
  lemma {:induction false} MovedBytes(o: seq<Byte>, dest: nat, src: nat, n: nat, m: seq<Byte>)
    requires Moved(o, dest, src, n, m)
    ensures m[dest..dest + n] == o[src..src + n] && m[..dest] == o[..dest] && m[dest + n..] == o[dest + n..]
  {
    forall i: nat | i < |o|
      ensures m[i] == if dest <= i < dest + n then o[src + (i - dest)] else o[i]
    {
      assert MovedAt(o, dest, src, n, m, i);
    }
    var u, v := m[..dest], o[..dest];
    forall i | 0 <= i < dest
      ensures u[i] == v[i]
    {
      assert MovedAt(o, dest, src, n, m, i);
    }
    var x, y := m[dest + n..], o[dest + n..];
    forall i | 0 <= i < |x|
      ensures x[i] == y[i]
    {
      assert MovedAt(o, dest, src, n, m, dest + n + i);
    }
  }

  lemma {:induction false} MovedStored(o: seq<Byte>, a: Access)
    requires a.d + a.width <= |o| && a.s + a.width <= |o|
    ensures Moved(o, a.d, a.s, a.width, Stored(o, a))
  {
    var m := Stored(o, a);
    forall i
      ensures MovedAt(o, a.d, a.s, a.width, m, i)
    {
    }
  }

  lemma {:induction false} MovedNothing(o: seq<Byte>, dest: nat, src: nat, n: nat)
    requires dest + n <= |o| && src + n <= |o| && (n == 0 || dest == src)
    ensures Moved(o, dest, src, n, o)
  {
    forall i
      ensures MovedAt(o, dest, src, n, o, i)
    {
    }
  }

  /** A forward copy may be cut in two: the first part does not touch what the second part reads. */
  lemma {:induction false} ForwardParts(o: seq<Byte>, dest: nat, src: nat, a: nat, b: nat, m: seq<Byte>, m': seq<Byte>)
    requires Moved(o, dest, src, a, m) && Moved(m, dest + a, src + a, b, m') && (dest < src || dest - src >= a + b)
    ensures Moved(o, dest, src, a + b, m')
  {
    var n := a + b;
    forall i
      ensures MovedAt(o, dest, src, n, m', i)
    {
      assert MovedAt(m, dest + a, src + a, b, m', i);
      assert MovedAt(o, dest, src, a, m, if dest + a <= i < dest + a + b then src + (i - dest) else i);
    }
  }

  /** A backward copy may be cut in two, the upper part first. */
  lemma {:induction false} BackwardParts(o: seq<Byte>, dest: nat, src: nat, a: nat, b: nat, m: seq<Byte>, m': seq<Byte>)
    requires Moved(o, dest + b, src + b, a, m) && Moved(m, dest, src, b, m') && src < dest
    ensures Moved(o, dest, src, a + b, m')
  {
    var n := a + b;
    forall i
      ensures MovedAt(o, dest, src, n, m', i)
    {
      assert MovedAt(m, dest, src, b, m', i);
      assert MovedAt(o, dest + b, src + b, a, m, if dest <= i < dest + b then src + (i - dest) else i);
    }
  }

  /** How many of the `n` bytes are first copied by 16-bit accesses: none, those of one access, or all. */
  function Narrow(d: nat, s: nat, n: nat): (k: nat)
    requires n > 1
    ensures k <= n && (d % 4 == 0 && s % 4 == 0 ==> k == 0)
  {
    if d % 4 == 0 && s % 4 == 0 then 0 else if d % 4 != s % 4 then n else 2
  }

  lemma {:induction false} NextAligned(x: nat)
    requires x % 2 == 0
    ensures x % 4 == 0 || (x % 4 == 2 && (x + 2) % 4 == 0 && (x - 2) % 4 == 0)
  {
  }

  /** Whatever is left for 32-bit accesses is aligned at both ends, going up or down. */
  lemma {:induction false} NarrowAligns(d: nat, s: nat, n: nat)
    requires d % 2 == 0 && s % 2 == 0 && n % 2 == 0 && n > 1
    ensures var k := Narrow(d, s, n);
            && k % 2 == 0 && (n - k) % 2 == 0
            && (k < n ==> (d + k) % 4 == 0 && (s + k) % 4 == 0 && (d - k) % 4 == 0 && (s - k) % 4 == 0)
  {
    NextAligned(d);
    NextAligned(s);
  }

  /** The word count, and the parity of the place where the last 16 bits go, going up or down. */
  lemma {:induction false} Leftover(a: nat, n: nat)
    requires n % 2 == 0 && (n > 0 ==> a % 4 == 0 || (a + n) % 4 == 0)
    ensures n == 4 * (n / 4) + n % 4 && (n % 4 == 0 || n % 4 == 2)
    ensures n > 0 ==> a % 2 == 0 && (a + 4 * (n / 4)) % 2 == 0
  {
    var w, h := n / 4, n / 2;
    assert n == 2 * h;
    if n > 0 {
      var y := if a % 4 == 0 then 2 * (a / 4) else 2 * ((a + n) / 4) - h;
      assert a == 2 * y;
      Even(a, y);
      Even(a + 4 * w, y + 2 * w);
    }
  }

  lemma {:induction false} Even(x: int, y: int)
    requires x == 2 * y
    ensures x % 2 == 0
  {
  }

  /** The same seen from the ends of the two ranges. */
  lemma {:induction false} BackwardAligns(dest: nat, src: nat, n: nat)
    requires dest % 2 == 0 && src % 2 == 0 && n % 2 == 0 && n > 1
    ensures var d, s := dest + n, src + n;
            var k := Narrow(d, s, n);
            && d % 2 == 0 && s % 2 == 0 && k % 2 == 0 && (n - k) % 2 == 0
            && (k < n ==> (d - k) % 4 == 0 && (s - k) % 4 == 0)
  {
    Even(dest + n, dest / 2 + n / 2);
    Even(src + n, src / 2 + n / 2);
    NarrowAligns(dest + n, src + n, n);
  }

  lemma {:induction false} Stepped(x: nat)
    ensures x % 2 == 0 ==> (x + 2) % 2 == 0 && (x >= 2 ==> (x - 2) % 2 == 0)
    ensures x % 4 == 0 ==> (x + 4) % 4 == 0 && (x >= 4 ==> (x - 4) % 4 == 0)
  {
  }

  /** How many 16-bit accesses that makes, with the one for what no word covers. */
  function NarrowCount(d: nat, s: nat, n: nat): nat
    requires n > 1
  {
    var k := Narrow(d, s, n);
    k / 2 + (if (n - k) % 4 == 0 then 0 else 1)
  }

  lemma {:induction false} NarrowRarely(d: nat, s: nat, n: nat)
    requires n > 1
    ensures d % 4 == s % 4 ==> NarrowCount(d, s, n) <= 2
    ensures d % 4 == 0 && s % 4 == 0 && n % 4 == 0 ==> NarrowCount(d, s, n) == 0
  {
  }

  /** A copy that starts from the ends is as good. */
  lemma {:induction false} NarrowBackward(dest: nat, src: nat, n: nat)
    requires n > 1
    ensures dest % 4 == src % 4 ==> NarrowCount(dest + n, src + n, n) <= 2
    ensures dest % 4 == 0 && src % 4 == 0 && n % 4 == 0 ==> NarrowCount(dest + n, src + n, n) == 0
  {
    NarrowRarely(dest + n, src + n, n);
    if dest % 4 == src % 4 { SameOffset(dest, src, n); }
    if dest % 4 == 0 && src % 4 == 0 && n % 4 == 0 {
      assert dest + n == 4 * (dest / 4 + n / 4) && src + n == 4 * (src / 4 + n / 4);
    }
  }

  lemma {:induction false} SameOffset(x: nat, y: nat, n: nat)
    requires x % 4 == y % 4
    ensures (x + n) % 4 == (y + n) % 4
  {
    var q := x / 4 - y / 4;
    assert x + n == (y + n) + 4 * q;
  }

  /** Memory that is accessed by 16-bit and 32-bit copies only: its contents are what the logged accesses make of them. */
  class Memory {
    const cells: array<Byte>
    ghost const start: seq<Byte>
    ghost var log: seq<Access>

    ghost predicate ValidFor(m: seq<Byte>)
      reads this
    {
      m == Replay(start, log) && |m| == cells.Length && forall i | 0 <= i < |log| :: AccessOk(log[i])
    }

    ghost predicate Valid()
      reads this, cells
    {
      ValidFor(cells[..])
    }

    ghost function Halves(): nat
      reads this
    {
      OfWidth(log, 2)
    }

    ghost function Fulls(): nat
      reads this
    {
      OfWidth(log, 4)
    }

    /** The accesses since there were `halves` and `fulls` of them stored `n` bytes. */
    ghost predicate Counted(halves: nat, fulls: nat, n: nat)
      reads this
    {
      2 * Halves() + 4 * Fulls() == 2 * halves + 4 * fulls + n
    }

    constructor (contents: array<Byte>)
      ensures Valid() && cells == contents && log == []
    {
      cells, start, log := contents, contents[..], [];
    }

    /** One 16-bit load and store. */
    method Copy16(d: nat, s: nat)
      requires Valid() && d % 2 == 0 && s % 2 == 0 && d + 2 <= cells.Length && s + 2 <= cells.Length
      modifies cells, this`log
      ensures Valid() && Moved(old(cells[..]), d, s, 2, cells[..])
      ensures Halves() == old(Halves()) + 1 && Fulls() == old(Fulls())
    {
      ghost var o := cells[..];
      var x, y := cells[s], cells[s + 1];
      cells[d], cells[d + 1] := x, y;
      StoredBytes(o, Access(d, s, 2), cells[..]);
      Note(o, Access(d, s, 2));
    }

    /** One aligned 32-bit load and store. */
    method Copy32(d: nat, s: nat)
      requires Valid() && d % 4 == 0 && s % 4 == 0 && d + 4 <= cells.Length && s + 4 <= cells.Length
      modifies cells, this`log
      ensures Valid() && Moved(old(cells[..]), d, s, 4, cells[..])
      ensures Halves() == old(Halves()) && Fulls() == old(Fulls()) + 1
    {
      ghost var o := cells[..];
      var w, x, y, z := cells[s], cells[s + 1], cells[s + 2], cells[s + 3];
      cells[d], cells[d + 1], cells[d + 2], cells[d + 3] := w, x, y, z;
      StoredBytes(o, Access(d, s, 4), cells[..]);
      Note(o, Access(d, s, 4));
    }

    /** The access just made is logged. */
    ghost method Note(o: seq<Byte>, a: Access)
      requires ValidFor(o) && AccessOk(a) && a.d + a.width <= |o| && a.s + a.width <= |o| && cells[..] == Stored(o, a)
      modifies this`log
      ensures Valid() && Moved(o, a.d, a.s, a.width, cells[..]) && log == old(log) + [a]
      ensures Halves() == old(Halves()) + (if a.width == 2 then 1 else 0) && Fulls() == old(Fulls()) + (if a.width == 4 then 1 else 0)
    {
      MovedStored(o, a);
      OneMore(start, log, a, 2);
      OneMore(start, log, a, 4);
      log := log + [a];
    }

    method Forward16(dest: nat, src: nat, count: nat)
      requires Valid() && dest % 2 == 0 && src % 2 == 0 && dest + 2 * count <= cells.Length && src + 2 * count <= cells.Length
      requires dest < src || dest - src >= 2 * count
      modifies cells, this`log
      ensures Valid() && Moved(old(cells[..]), dest, src, 2 * count, cells[..])
      ensures Halves() == old(Halves()) + count && Fulls() == old(Fulls())
    {
      ghost var o := cells[..];
      MovedNothing(o, dest, src, 0);
      var d, s := dest, src;
      var copyCount: nat := count;
      ghost var done: nat := 0;
      while copyCount > 0
        invariant Valid() && Halves() == old(Halves()) + count - copyCount && Fulls() == old(Fulls())
        invariant done == 2 * (count - copyCount) && copyCount <= count && d == dest + done && s == src + done
        invariant d % 2 == 0 && s % 2 == 0
        invariant Moved(o, dest, src, done, cells[..])
      {
        ghost var m := cells[..];
        Stepped(d);
        Stepped(s);
        Copy16(d, s);
        ForwardParts(o, dest, src, done, 2, m, cells[..]);
        d, s, copyCount := d + 2, s + 2, copyCount - 1;
        done := done + 2;
      }
    }

    method Forward32(dest: nat, src: nat, count: nat)
      requires Valid() && dest + 4 * count <= cells.Length && src + 4 * count <= cells.Length
      requires count > 0 ==> dest % 4 == 0 && src % 4 == 0
      requires dest < src || dest - src >= 4 * count
      modifies cells, this`log
      ensures Valid() && Moved(old(cells[..]), dest, src, 4 * count, cells[..])
      ensures Halves() == old(Halves()) && Fulls() == old(Fulls()) + count
    {
      ghost var o := cells[..];
      MovedNothing(o, dest, src, 0);
      var d, s := dest, src;
      var copyCount: nat := count;
      ghost var done: nat := 0;
      while copyCount > 0
        invariant Valid() && Halves() == old(Halves()) && Fulls() == old(Fulls()) + count - copyCount
        invariant done == 4 * (count - copyCount) && copyCount <= count && d == dest + done && s == src + done
        invariant count > 0 ==> d % 4 == 0 && s % 4 == 0
        invariant Moved(o, dest, src, done, cells[..])
      {
        ghost var m := cells[..];
        Stepped(d);
        Stepped(s);
        Copy32(d, s);
        ForwardParts(o, dest, src, done, 4, m, cells[..]);
        d, s, copyCount := d + 4, s + 4, copyCount - 1;
        done := done + 4;
      }
    }

    /** Copies the `2 * count` bytes that end at `send` to end at `dend`. */
    method Backward16(dend: nat, send: nat, count: nat)
      requires Valid() && dend % 2 == 0 && send % 2 == 0 && 2 * count <= send < dend <= cells.Length
      modifies cells, this`log
      ensures Valid() && Moved(old(cells[..]), dend - 2 * count, send - 2 * count, 2 * count, cells[..])
      ensures Halves() == old(Halves()) + count && Fulls() == old(Fulls())
    {
      ghost var o := cells[..];
      MovedNothing(o, dend, send, 0);
      var d, s := dend, send;
      var copyCount: nat := count;
      ghost var done: nat := 0;
      while copyCount > 0
        invariant Valid() && Halves() == old(Halves()) + count - copyCount && Fulls() == old(Fulls())
        invariant done == 2 * (count - copyCount) && copyCount <= count && d == dend - done && s == send - done
        invariant d % 2 == 0 && s % 2 == 0
        invariant Moved(o, d, s, done, cells[..])
      {
        ghost var m := cells[..];
        Stepped(d);
        Stepped(s);
        d, s := d - 2, s - 2;
        Copy16(d, s);
        BackwardParts(o, d, s, done, 2, m, cells[..]);
        copyCount, done := copyCount - 1, done + 2;
      }
    }

    method Backward32(dend: nat, send: nat, count: nat)
      requires Valid() && 4 * count <= send < dend <= cells.Length
      requires count > 0 ==> dend % 4 == 0 && send % 4 == 0
      modifies cells, this`log
      ensures Valid() && Moved(old(cells[..]), dend - 4 * count, send - 4 * count, 4 * count, cells[..])
      ensures Halves() == old(Halves()) && Fulls() == old(Fulls()) + count
    {
      ghost var o := cells[..];
      MovedNothing(o, dend, send, 0);
      var d, s := dend, send;
      var copyCount: nat := count;
      ghost var done: nat := 0;
      while copyCount > 0
        invariant Valid() && Halves() == old(Halves()) && Fulls() == old(Fulls()) + count - copyCount
        invariant done == 4 * (count - copyCount) && copyCount <= count && d == dend - done && s == send - done
        invariant count > 0 ==> d % 4 == 0 && s % 4 == 0
        invariant Moved(o, d, s, done, cells[..])
      {
        ghost var m := cells[..];
        Stepped(d);
        Stepped(s);
        d, s := d - 4, s - 4;
        Copy32(d, s);
        BackwardParts(o, d, s, done, 4, m, cells[..]);
        copyCount, done := copyCount - 1, done + 4;
      }
    }

    method CopyForward(dest: nat, src: nat, n: nat)
      requires Valid() && dest % 2 == 0 && src % 2 == 0 && n % 2 == 0 && 0 < n && dest + n <= cells.Length && src + n <= cells.Length
      requires dest < src || dest - src >= n
      modifies cells, this`log
      ensures Valid() && Moved(old(cells[..]), dest, src, n, cells[..]) && Counted(old(Halves()), old(Fulls()), n)
      ensures Halves() == old(Halves()) + NarrowCount(dest, src, n)
    {
      NarrowAligns(dest, src, n);
      var k := Narrow(dest, src, n);
      ForwardFrom(dest, src, k / 2, n - k);
    }

    /** First `halves` 16-bit accesses, then `n` bytes by words. */
    method ForwardFrom(dest: nat, src: nat, halves: nat, n: nat)
      requires Valid() && dest % 2 == 0 && src % 2 == 0 && dest + 2 * halves + n <= cells.Length && src + 2 * halves + n <= cells.Length
      requires dest < src || dest - src >= 2 * halves + n
      requires n % 2 == 0 && (n > 0 ==> (dest + 2 * halves) % 4 == 0 && (src + 2 * halves) % 4 == 0)
      modifies cells, this`log
      ensures Valid() && Moved(old(cells[..]), dest, src, 2 * halves + n, cells[..])
      ensures Counted(old(Halves()), old(Fulls()), 2 * halves + n) && Halves() == old(Halves()) + halves + (if n % 4 == 0 then 0 else 1)
    {
      Forward16(dest, src, halves);
      ghost var m := cells[..];
      ForwardRest(dest + 2 * halves, src + 2 * halves, n);
      ForwardParts(old(cells[..]), dest, src, 2 * halves, n, m, cells[..]);
    }

    /** The 32-bit words of a forward copy and the 16 bits that may be left over. */
    method ForwardRest(d: nat, s: nat, n: nat)
      requires Valid() && n % 2 == 0 && d + n <= cells.Length && s + n <= cells.Length && (d < s || d - s >= n)
      requires n > 0 ==> d % 4 == 0 && s % 4 == 0
      modifies cells, this`log
      ensures Valid() && Moved(old(cells[..]), d, s, n, cells[..]) && Counted(old(Halves()), old(Fulls()), n)
      ensures Halves() == old(Halves()) + (if n % 4 == 0 then 0 else 1)
    {
      var words := n / 4;
      Leftover(d, n);
      Leftover(s, n);
      Forward32(d, s, words);
      if n % 4 != 0 {
        ghost var m := cells[..];
        Copy16(d + 4 * words, s + 4 * words);
        ForwardParts(old(cells[..]), d, s, 4 * words, 2, m, cells[..]);
      }
    }

    method CopyBackward(dest: nat, src: nat, n: nat)
      requires Valid() && dest % 2 == 0 && src % 2 == 0 && n % 2 == 0 && 0 < n && dest + n <= cells.Length && src < dest
      modifies cells, this`log
      ensures Valid() && Moved(old(cells[..]), dest, src, n, cells[..]) && Counted(old(Halves()), old(Fulls()), n)
      ensures Halves() == old(Halves()) + NarrowCount(dest + n, src + n, n)
    {
      BackwardAligns(dest, src, n);
      var k := Narrow(dest + n, src + n, n);
      BackwardFrom(dest + n, src + n, k / 2, n - k);
    }

    method BackwardFrom(d: nat, s: nat, halves: nat, n: nat)
      requires Valid() && d % 2 == 0 && s % 2 == 0 && 2 * halves + n <= s < d <= cells.Length
      requires n % 2 == 0 && (n > 0 ==> (d - 2 * halves) % 4 == 0 && (s - 2 * halves) % 4 == 0)
      modifies cells, this`log
      ensures Valid() && Moved(old(cells[..]), d - 2 * halves - n, s - 2 * halves - n, 2 * halves + n, cells[..])
      ensures Counted(old(Halves()), old(Fulls()), 2 * halves + n) && Halves() == old(Halves()) + halves + (if n % 4 == 0 then 0 else 1)
    {
      Backward16(d, s, halves);
      ghost var m := cells[..];
      BackwardRest(d - 2 * halves, s - 2 * halves, n);
      BackwardParts(old(cells[..]), d - 2 * halves - n, s - 2 * halves - n, 2 * halves, n, m, cells[..]);
    }

    method BackwardRest(dend: nat, send: nat, n: nat)
      requires Valid() && n % 2 == 0 && n <= send < dend <= cells.Length
      requires n > 0 ==> dend % 4 == 0 && send % 4 == 0
      modifies cells, this`log
      ensures Valid() && Moved(old(cells[..]), dend - n, send - n, n, cells[..]) && Counted(old(Halves()), old(Fulls()), n)
      ensures Halves() == old(Halves()) + (if n % 4 == 0 then 0 else 1)
    {
      var words := n / 4;
      Leftover(dend - n, n);
      Leftover(send - n, n);
      Backward32(dend, send, words);
      if n % 4 != 0 {
        ghost var m := cells[..];
        Copy16(dend - n, send - n);
        BackwardParts(old(cells[..]), dend - n, send - n, 4 * words, 2, m, cells[..]);
      }
    }

    /**
     * `_memmove_words`: each byte is stored once, if at all; 16-bit accesses are at most two if the two addresses are
     * equally far from a word boundary, and none if both addresses and the length are multiples of 4.
     */
    method Move(dest: nat, src: nat, n: nat)
      requires Valid() && dest % 2 == 0 && src % 2 == 0 && n % 2 == 0 && dest + n <= cells.Length && src + n <= cells.Length
      modifies cells, this`log
      ensures Valid() && Moved(old(cells[..]), dest, src, n, cells[..])
      ensures Counted(old(Halves()), old(Fulls()), if dest == src then 0 else n)
      ensures dest % 4 == src % 4 ==> Halves() <= old(Halves()) + 2
      ensures dest % 4 == 0 && src % 4 == 0 && n % 4 == 0 ==> Halves() == old(Halves())
    {
      if n == 0 || dest == src {
        MovedNothing(cells[..], dest, src, n);
        return;
      }
      if dest < src || dest - src >= n {
        NarrowRarely(dest, src, n);
        CopyForward(dest, src, n);
      } else {
        NarrowBackward(dest, src, n);
        CopyBackward(dest, src, n);
      }
    }
  }
}
