/**
  The members `CppTypeDefinition::emit` writes for an owned, non-Copy Rust
  type, as objects: a wrapper with its `drop_flag` and buffer, and the Rust
  side that owns values and drops them. Each member is specified by the
  step of the drop-flag protocol it performs, so the conservation theorem
  proved on the protocol covers every program built from these members.
 */
module Lifecycle {
  import opened Base
  import opened Protocol

  /** The Rust side: the values it has dropped, in order, and those it owns. */
  class Rust {
    var dropped: seq<nat>
    var owned: multiset<nat>

    constructor(owned0: multiset<nat>)
      ensures dropped == [] && owned == owned0
    {
      dropped := [];
      owned := owned0;
    }

    /** The type's `drop_in_place` symbol, applied to a buffer. */
    method DropInPlace(v: nat)
      modifies this
      ensures dropped == old(dropped) + [v] && owned == old(owned)
    {
      dropped := dropped + [v];
    }

    /** Rust takes a value over (a `memcpy` out of a wrapper's buffer). */
    method Receive(v: nat)
      modifies this
      ensures owned == old(owned) + multiset{v} && dropped == old(dropped)
    {
      owned := owned + multiset{v};
    }

    /** Rust writes a value it owns into a buffer and gives it up. */
    method Give(v: nat)
      requires v in owned
      modifies this
      ensures owned == old(owned) - multiset{v} && dropped == old(dropped)
    {
      owned := owned - multiset{v};
    }
  }

  /** A generated C++ class of an owned, non-Copy type. `live` is ghost:
      it is false once the destructor ran, after which C++ allows no member
      to be called. */
  class Wrapper {
    var dropFlag: bool
    var data: nat
    ghost var live: bool

    ghost function AsSlot(): Slot
      reads this
    {
      Slot(live, dropFlag, data)
    }

    /** `T() : drop_flag(false)`. */
    constructor()
      ensures AsSlot() == Empty
    {
      dropFlag := false;
      data := 0;
      live := true;
    }

    /** `~T()`: drop the buffer when the flag is set; the flag is left as
        it is and the object's lifetime ends. */
    method Destroy(rust: Rust)
      requires live
      modifies this, rust
      ensures (AsSlot(), rust.dropped) == DestroyStep(old(AsSlot()), old(rust.dropped))
      ensures rust.owned == old(rust.owned)
    {
      if dropFlag {
        rust.DropInPlace(data);
      }
      live := false;
    }

    /** `T& operator=(T&& other)`: nothing happens on self-assignment;
        otherwise the old value is dropped, the flag and buffer copied and
        the source's flag cleared. */
    method MoveAssign(other: Wrapper, rust: Rust)
      requires live && other.live
      modifies this, other, rust
      ensures other == this ==> AsSlot() == old(AsSlot()) && rust.dropped == old(rust.dropped)
      ensures other != this ==>
                (AsSlot(), other.AsSlot(), rust.dropped)
                == MoveAssignStep(old(AsSlot()), old(other.AsSlot()), old(rust.dropped))
      ensures rust.owned == old(rust.owned)
    {
      if this != other {
        if dropFlag {
          rust.DropInPlace(data);
        }
        dropFlag := other.dropFlag;
        data := other.data;
        other.dropFlag := false;
      }
    }

    /** `T(T&& other) : drop_flag(false) { *this = ::std::move(other); }`:
        a move assignment into a fresh, uninitialised wrapper. */
    constructor MoveFrom(other: Wrapper, rust: Rust)
      requires other.live
      modifies other, rust
      ensures (AsSlot(), other.AsSlot(), rust.dropped)
              == MoveAssignStep(Empty, old(other.AsSlot()), old(rust.dropped))
      ensures rust.owned == old(rust.owned)
    {
      dropFlag := false;
      data := 0;
      live := true;
      new;
      MoveAssign(other, rust);
    }

    /** `__zngur_internal_check_init`: `false` is the abort the template
        raises on an uninitialised or moved-from wrapper. */
    method CheckInit() returns (ok: bool)
      requires live
      ensures ok <==> AssumeDeinitStep(AsSlot()).Some?
    {
      ok := dropFlag;
    }

    /** `__zngur_internal_assume_init`. */
    method AssumeInit()
      requires live
      modifies this
      ensures AsSlot() == AssumeInitStep(old(AsSlot()))
    {
      dropFlag := true;
    }

    /** `__zngur_internal_assume_deinit`: `check_init`, then the flag is
        cleared; `false` means the program aborted. */
    method AssumeDeinit() returns (ok: bool)
      requires live
      modifies this
      ensures ok ==> AssumeDeinitStep(old(AsSlot())) == Some(AsSlot())
      ensures !ok ==> AssumeDeinitStep(old(AsSlot())).None? && AsSlot() == old(AsSlot())
    {
      ok := CheckInit();
      if ok {
        dropFlag := false;
      }
    }

    /** `__zngur_internal_move_to_rust`: the buffer goes to Rust, then the
        wrapper is deinitialised; `false` means the program aborted. */
    method MoveToRust(rust: Rust) returns (ok: bool)
      requires live
      modifies this, rust
      ensures ok <==> old(dropFlag)
      ensures ok ==> AssumeDeinitStep(old(AsSlot())) == Some(AsSlot())
                     && rust.owned == old(rust.owned) + multiset{old(data)}
      ensures !ok ==> AsSlot() == old(AsSlot()) && rust.owned == old(rust.owned)
      ensures rust.dropped == old(rust.dropped)
    {
      var v := data;
      ok := AssumeDeinit();
      if ok {
        rust.Receive(v);
      }
    }
  }

  /** `__zngur_internal_move_from_rust`: a fresh wrapper, `assume_init`,
      then Rust's value copied into the buffer. */
  method MoveFromRust(rust: Rust, v: nat) returns (t: Wrapper)
    requires v in rust.owned
    modifies rust
    ensures fresh(t)
    ensures t.AsSlot() == AssumeInitStep(Empty).(data := v)
    ensures rust.owned == old(rust.owned) - multiset{v} && rust.dropped == old(rust.dropped)
  {
    t := new Wrapper();
    t.AssumeInit();
    rust.Give(v);
    t.data := v;
  }
}
