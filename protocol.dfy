/**
  The ownership protocol the generated C++ wrapper of a non-Copy Rust type
  follows. Each wrapper holds a buffer and a `drop_flag`; the flag says
  whether the buffer holds a live Rust value that the wrapper must drop.
  The templates written by `CppTypeDefinition::emit` move values between
  wrappers, hand them to Rust and take them back; the invariant proved here
  is that no Rust value is ever in two places at once, so none is dropped
  twice and none is dropped while a wrapper still holds it.
 */
module Protocol {
  import opened Base

  /** One wrapper: whether its lifetime has not yet ended, its drop flag,
      and the Rust value in its buffer, which only counts while the wrapper
      is alive and the flag is set. `live` is not a field of the generated
      class: it records that C++ forbids any use of an object after its
      destructor ran. */
  datatype Slot = Slot(live: bool, flag: bool, data: nat)

  /** The default constructor `T() : drop_flag(false)`. */
  const Empty: Slot := Slot(true, false, 0)

  /** The destructor: `drop_in_place` on the buffer when the flag is set.
      The generated `~T()` leaves `drop_flag` as it was; the object's
      lifetime ends. */
  function DestroyStep(s: Slot, dropped: seq<nat>): (Slot, seq<nat>) {
    (s.(live := false), if s.flag then dropped + [s.data] else dropped)
  }

  /** Move assignment from a distinct wrapper: drop what the destination
      holds, take over the source's flag and buffer, clear the source. */
  function MoveAssignStep(dst: Slot, src: Slot, dropped: seq<nat>): (Slot, Slot, seq<nat>) {
    (dst.(flag := src.flag, data := src.data), src.(flag := false),
     if dst.flag then dropped + [dst.data] else dropped)
  }

  /** `__zngur_internal_assume_deinit`: `check_init` aborts the program
      when the flag is clear; otherwise the flag is cleared. */
  function AssumeDeinitStep(s: Slot): Option<Slot> {
    if s.flag then Some(s.(flag := false)) else None
  }

  /** `__zngur_internal_assume_init`: the flag is set, the buffer is left
      as it is (Rust writes it). */
  function AssumeInitStep(s: Slot): Slot {
    s.(flag := true)
  }

  /** All wrappers, the values dropped so far in order, and the values Rust
      owns. */
  datatype World = World(slots: seq<Slot>, dropped: seq<nat>, rust: multiset<nat>)

  /** What a C++ program does with the wrappers: create one, destroy one,
      move-assign one into another, move-construct a new one, take a value
      from Rust into a new wrapper (`__zngur_internal_move_from_rust`, or the
      `o` of a generated function after Rust wrote its result), give one to
      Rust (`__zngur_internal_move_to_rust`, or passing an argument by value,
      which calls `__zngur_internal_assume_deinit`). */
  datatype Op =
    | Create
    | Destroy(i: nat)
    | MoveAssign(dst: nat, src: nat)
    | MoveConstruct(src: nat)
    | FromRust(v: nat)
    | ToRust(i: nat)

  /** One operation; `None` when the program aborts in `check_init`, names a
      wrapper that does not exist or whose destructor already ran, or takes
      from Rust a value Rust does not own. */
  function Step(w: World, op: Op): Option<World> {
    match op
    case Create => Some(w.(slots := w.slots + [Empty]))
    case Destroy(i) =>
      if i < |w.slots| && w.slots[i].live then
        var (s, d) := DestroyStep(w.slots[i], w.dropped);
        Some(w.(slots := w.slots[i := s], dropped := d))
      else None
    case MoveAssign(dst, src) =>
      if dst < |w.slots| && src < |w.slots| && w.slots[dst].live && w.slots[src].live then
        if dst == src then Some(w)
        else
          var (d, s, dr) := MoveAssignStep(w.slots[dst], w.slots[src], w.dropped);
          Some(w.(slots := w.slots[dst := d][src := s], dropped := dr))
      else None
    case MoveConstruct(src) =>
      if src < |w.slots| && w.slots[src].live then
        var (d, s, dr) := MoveAssignStep(Empty, w.slots[src], w.dropped);
        Some(w.(slots := w.slots[src := s] + [d], dropped := dr))
      else None
    case FromRust(v) =>
      if v in w.rust then
        Some(w.(slots := w.slots + [AssumeInitStep(Empty).(data := v)], rust := w.rust - multiset{v}))
      else None
    case ToRust(i) =>
      if i < |w.slots| && w.slots[i].live then
        match AssumeDeinitStep(w.slots[i])
        case None => None
        case Some(s) => Some(w.(slots := w.slots[i := s], rust := w.rust + multiset{w.slots[i].data}))
      else None
  }

  /** A program run from `w`; `None` once a step fails. */
  function Run(w: World, ops: seq<Op>): Option<World>
    decreases |ops|
  {
    if ops == [] then Some(w)
    else match Step(w, ops[0])
      case None => None
      case Some(w1) => Run(w1, ops[1..])
  }

  /** 1 when the slot is alive and holds `v` under a set flag. */
  function Holds(s: Slot, v: nat): nat {
    if s.live && s.flag && s.data == v then 1 else 0
  }

  /** How many wrappers hold `v` live. */
  function Holders(slots: seq<Slot>, v: nat): nat
    decreases |slots|
  {
    if slots == [] then 0 else Holds(slots[0], v) + Holders(slots[1..], v)
  }

  /** Every value is in at most one place: one wrapper, the dropped list,
      or Rust. */
  ghost predicate Sound(w: World) {
    forall v: nat :: Holders(w.slots, v) + multiset(w.dropped)[v] + w.rust[v] <= 1
  }

  lemma {:induction false} HoldersUpdate(slots: seq<Slot>, i: nat, x: Slot, v: nat)
    requires i < |slots|
    ensures Holders(slots[i := x], v) + Holds(slots[i], v) == Holders(slots, v) + Holds(x, v)
    decreases |slots|
  {
    if i > 0 {
      assert slots[i := x][1..] == slots[1..][i - 1 := x];
      HoldersUpdate(slots[1..], i - 1, x, v);
    } else {
      assert slots[i := x][1..] == slots[1..];
    }
  }

  lemma {:induction false} HoldersAppend(slots: seq<Slot>, x: Slot, v: nat)
    ensures Holders(slots + [x], v) == Holders(slots, v) + Holds(x, v)
    decreases |slots|
  {
    if slots == [] {
      assert [] + [x] == [x];
      assert [x][1..] == [];
    } else {
      assert (slots + [x])[1..] == slots[1..] + [x];
      HoldersAppend(slots[1..], x, v);
    }
  }

  /** A live value is held by its wrapper. */
  lemma {:induction false} HoldersAt(slots: seq<Slot>, i: nat, v: nat)
    requires i < |slots|
    ensures Holders(slots, v) >= Holds(slots[i], v)
    decreases |slots|
  {
    if i > 0 {
      HoldersAt(slots[1..], i - 1, v);
      assert slots[1..][i - 1] == slots[i];
    }
  }

  /** Every step keeps each value in at most one place. */
  lemma {:induction false} StepSound(w: World, op: Op)
    requires Sound(w)
    requires Step(w, op).Some?
    ensures Sound(Step(w, op).value)
  {
    var w1 := Step(w, op).value;
    forall v: nat ensures Holders(w1.slots, v) + multiset(w1.dropped)[v] + w1.rust[v] <= 1 {
      StepCount(w, op, v);
    }
  }

  /** The count for one value across one step. */
  lemma {:induction false} StepCount(w: World, op: Op, v: nat)
    requires Sound(w)
    requires Step(w, op).Some?
    ensures var w1 := Step(w, op).value;
            Holders(w1.slots, v) + multiset(w1.dropped)[v] + w1.rust[v] <= 1
  {
    assert Holders(w.slots, v) + multiset(w.dropped)[v] + w.rust[v] <= 1;
    match op {
      case Create =>
        HoldersAppend(w.slots, Empty, v);
      case Destroy(i) =>
        var s := w.slots[i];
        HoldersUpdate(w.slots, i, s.(live := false), v);
        if s.flag {
          assert multiset(w.dropped + [s.data]) == multiset(w.dropped) + multiset{s.data};
        }
      case MoveAssign(dst, src) =>
        if dst != src {
          MoveAssignCount(w, dst, src, v);
        }
      case MoveConstruct(src) =>
        var s := w.slots[src];
        HoldersUpdate(w.slots, src, s.(flag := false), v);
        HoldersAppend(w.slots[src := s.(flag := false)], Empty.(flag := s.flag, data := s.data), v);
      case FromRust(x) =>
        HoldersAppend(w.slots, Slot(true, true, x), v);
      case ToRust(i) =>
        var s := w.slots[i];
        HoldersUpdate(w.slots, i, s.(flag := false), v);
    }
  }

  /** The count for one value across a move assignment between distinct
      wrappers: the destination's value moves to the dropped list, the
      source's to the destination. */
  lemma {:induction false} MoveAssignCount(w: World, dst: nat, src: nat, v: nat)
    requires Sound(w)
    requires dst < |w.slots| && src < |w.slots| && dst != src
    requires w.slots[dst].live && w.slots[src].live
    ensures var (d, s, dr) := MoveAssignStep(w.slots[dst], w.slots[src], w.dropped);
            Holders(w.slots[dst := d][src := s], v) + multiset(dr)[v] + w.rust[v] <= 1
  {
    var a := w.slots[dst];
    var b := w.slots[src];
    var (d, s, dr) := MoveAssignStep(a, b, w.dropped);
    var mid := w.slots[dst := d];
    HoldersUpdate(w.slots, dst, d, v);
    assert mid[src] == b;
    HoldersUpdate(mid, src, s, v);
    if a.flag {
      assert multiset(dr) == multiset(w.dropped) + multiset{a.data};
    }
  }

  /** A whole program keeps the invariant; the values dropped before are
      still dropped, and no value is ever dropped twice. */
  lemma {:induction false} RunSound(w: World, ops: seq<Op>)
    requires Sound(w)
    requires Run(w, ops).Some?
    ensures Sound(Run(w, ops).value)
    ensures w.dropped <= Run(w, ops).value.dropped
    ensures forall v: nat :: multiset(Run(w, ops).value.dropped)[v] <= 1
    decreases |ops|
  {
    if ops != [] {
      var w1 := Step(w, ops[0]).value;
      StepSound(w, ops[0]);
      StepKeepsDrops(w, ops[0]);
      RunSound(w1, ops[1..]);
    }
    var w2 := Run(w, ops).value;
    forall v: nat ensures multiset(w2.dropped)[v] <= 1 {
      assert Holders(w2.slots, v) + multiset(w2.dropped)[v] + w2.rust[v] <= 1;
    }
  }

  /** In a sound world a dropped value is neither held by a wrapper nor
      owned by Rust: nothing is used after its drop. */
  lemma {:induction false} DroppedIsDead(w: World, v: nat)
    requires Sound(w)
    requires v in w.dropped
    ensures Holders(w.slots, v) == 0 && v !in w.rust
  {
    assert Holders(w.slots, v) + multiset(w.dropped)[v] + w.rust[v] <= 1;
    assert v in multiset(w.dropped);
  }

  lemma {:induction false} StepKeepsDrops(w: World, op: Op)
    requires Step(w, op).Some?
    ensures w.dropped <= Step(w, op).value.dropped
  {
  }

  /** The destructor drops the buffer exactly when the flag is set, and
      leaves the flag as it was: were it run a second time on the same
      storage it would drop the value again. This is why a destroyed
      wrapper must take no further step. */
  lemma {:induction false} DestroyKeepsFlag(s: Slot, dropped: seq<nat>)
    ensures var (s1, d1) := DestroyStep(s, dropped);
            && s1.flag == s.flag && s1.data == s.data && !s1.live
            && d1 == (if s.flag then dropped + [s.data] else dropped)
            && (s.flag ==> DestroyStep(s1, d1).1 == dropped + [s.data, s.data])
  {
  }

  /** The operation names wrapper `i`. */
  predicate Uses(op: Op, i: nat) {
    match op
    case Destroy(j) => j == i
    case MoveAssign(dst, src) => dst == i || src == i
    case MoveConstruct(src) => src == i
    case ToRust(j) => j == i
    case _ => false
  }

  /** After its destructor ran, a wrapper takes no further step: a program
      that uses it again, a second destruction included, is not one `Run`
      accepts. */
  lemma {:induction false} DestroyedTakesNoStep(w: World, i: nat, op: Op)
    requires Step(w, Destroy(i)).Some?
    requires Uses(op, i)
    ensures Step(Step(w, Destroy(i)).value, op).None?
  {
    var w1 := Step(w, Destroy(i)).value;
    assert i < |w1.slots| && !w1.slots[i].live;
  }

  /** A moved-from wrapper is uninitialised, the destination holds what the
      source held, and the destination's old value is dropped when it was
      live. */
  lemma {:induction false} MovedFromIsEmpty(w: World, dst: nat, src: nat)
    requires dst < |w.slots| && src < |w.slots| && dst != src
    requires w.slots[dst].live && w.slots[src].live
    ensures var w1 := Step(w, MoveAssign(dst, src)).value;
            && !w1.slots[src].flag
            && w1.slots[dst] == w.slots[src]
            && (w.slots[dst].flag ==> w1.dropped == w.dropped + [w.slots[dst].data])
            && (!w.slots[dst].flag ==> w1.dropped == w.dropped)
  {
  }

  /** Self move-assignment changes nothing, even for a live wrapper. */
  lemma {:induction false} SelfMoveAssign(w: World, i: nat)
    requires i < |w.slots| && w.slots[i].live
    ensures Step(w, MoveAssign(i, i)) == Some(w)
  {
  }

  /** Handing a value to Rust twice aborts in `check_init`. */
  lemma {:induction false} ToRustTwiceAborts(w: World, i: nat)
    requires i < |w.slots|
    requires Step(w, ToRust(i)).Some?
    ensures Step(Step(w, ToRust(i)).value, ToRust(i)).None?
  {
  }
}
