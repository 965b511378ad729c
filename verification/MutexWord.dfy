/** The 32-bit word of a recursive or errorcheck mutex: owner, type, shared flag, counter and lock state. */
module MutexWord {
  const COUNTER_ONE: nat := 4
  const COUNTER_MAX: nat := 2047
  const RECURSIVE: nat := 1
  const ERRORCHECK: nat := 2

  const UNLOCKED: nat := 0
  const UNCONTENDED: nat := 1
  const CONTENDED: nat := 2

  /** Bits 0 and 1, `MUTEX_STATE_FROM_BITS`. */
  function Lock(w: nat): nat {
    w % 4
  }

  /** Bits 2 to 12. */
  function Counter(w: nat): nat {
    w / 4 % 2048
  }

  /** Bits 13 to 15, the shared flag and the type, which never change. */
  function Kind(w: nat): nat {
    w / 4 / 2048 % 8
  }

  /** Bits 16 to 31, `MUTEX_OWNER_FROM_BITS`. */
  function Owner(w: nat): nat {
    w / 4 / 2048 / 8
  }

  /** The word with the given fields; `kind` holds the type and, as its last bit, the shared flag. */
  function Pack(owner: nat, kind: nat, counter: nat, lock: nat): nat {
    4 * (2048 * (8 * owner + kind) + counter) + lock
  }

  /** Fields that fit are read back unchanged. */
  lemma {:induction false} PackFields(owner: nat, kind: nat, counter: nat, lock: nat)
    requires owner < 65536 && kind < 8 && counter <= COUNTER_MAX && lock < 4
    ensures var w := Pack(owner, kind, counter, lock);
            && w < 0x1_0000_0000 && Owner(w) == owner && Kind(w) == kind && Counter(w) == counter && Lock(w) == lock
  {
    var x := 8 * owner + kind;
    var y := 2048 * x + counter;
    var w := 4 * y + lock;
    assert w / 4 == y && w % 4 == lock;
    assert y / 2048 == x && y % 2048 == counter;
    assert x / 8 == owner && x % 8 == kind;
  }

  /** A word is determined by its fields. */
  lemma {:induction false} FieldsPack(w: nat)
    requires w < 0x1_0000_0000
    ensures w == Pack(Owner(w), Kind(w), Counter(w), Lock(w))
    ensures Owner(w) < 65536 && Kind(w) < 8 && Counter(w) <= COUNTER_MAX && Lock(w) < 4
  {
    var y := w / 4;
    var x := y / 2048;
    assert w == 4 * y + w % 4;
    assert y == 2048 * x + y % 2048;
    assert x == 8 * (x / 8) + x % 8;
  }

  /** `MUTEX_STATE_BITS_FLIP_CONTENTION`: exclusive or with 3. */
  function Flip(w: nat): nat {
    w - w % 4 + (3 - w % 4)
  }

  /** Flipping contention changes only the lock state, from 1 to 2. */
  lemma {:induction false} FlipFields(w: nat)
    requires w < 0x1_0000_0000 && Lock(w) == UNCONTENDED
    ensures Flip(w) == Pack(Owner(w), Kind(w), Counter(w), CONTENDED)
  {
    FieldsPack(w);
  }

  /** Adding one to a counter that is not full changes no other field. */
  lemma {:induction false} BumpFields(w: nat)
    requires w < 0x1_0000_0000 && Counter(w) < COUNTER_MAX
    ensures w + COUNTER_ONE == Pack(Owner(w), Kind(w), Counter(w) + 1, Lock(w))
  {
    FieldsPack(w);
  }

  /** `v - MUTEX_COUNTER_BITS_ONE` on a 32-bit word. */
  function Drop(w: nat): nat {
    if w >= COUNTER_ONE then w - COUNTER_ONE else w + 0x1_0000_0000 - COUNTER_ONE
  }

  lemma {:induction false} DropFields(w: nat)
    requires w < 0x1_0000_0000 && Counter(w) > 0
    ensures Drop(w) == Pack(Owner(w), Kind(w), Counter(w) - 1, Lock(w))
  {
    FieldsPack(w);
  }
}
