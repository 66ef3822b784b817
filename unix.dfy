/**
 * The Linux and macOS implementation: the loader hands `argc` and `argv` to an
 * initializer that runs before `main`; the initializer stores them in two
 * process-wide statics; every iterator afterwards walks that table in place.
 */
module Unix {

  import opened Optional
  import opened CStr
  import opened Pointers

  /** `c_int`: a 32-bit signed integer. */
  newtype CInt = x: int | -0x8000_0000 <= x < 0x8000_0000

  /**
   * A `*const *const c_char`: either null, or the address of a table of
   * pointer slots together with the C strings those slots point to.
   */
  datatype ArgvPtr = Null | Table(address: nat, slots: seq<seq<byte>>)

  /** The address a pointer holds; null is address 0. */
  function Address(p: ArgvPtr): nat {
    match p
    case Null => 0
    case Table(address, _) => address
  }

  /**
   * What the process relies on when it reads `ARGC` and `ARGV`: either the
   * initial state (0 and null), or a count the loader supplied, no larger than
   * the table, whose first `argc` slots hold C strings, and for which
   * `argv + argc` does not overflow.
   */
  predicate WellFormed(argc: CInt, argv: ArgvPtr) {
    match argv
    case Null => argc == 0
    case Table(address, slots) =>
      0 < address && 0 <= argc && argc as int <= |slots|
      && Offset(address, argc as nat) < UsizeLimit
      && forall i :: 0 <= i < argc as int ==> NulTerminated(slots[i])
  }

  /** The arguments held by a sequence of table slots, in table order. */
  function ArgStrings(slots: seq<seq<byte>>): (r: seq<seq<byte>>)
    requires forall i :: 0 <= i < |slots| ==> NulTerminated(slots[i])
    ensures |r| == |slots|
    ensures forall i :: 0 <= i < |r| ==> r[i] == ToBytes(slots[i])
    ensures forall i :: 0 <= i < |r| ==> NUL !in r[i]
  {
    if slots == [] then [] else [ToBytes(slots[0])] + ArgStrings(slots[1..])
  }

  /** The slots a loader writes for the given arguments: each one followed by its NUL terminator. */
  function LoaderTable(args: seq<seq<byte>>): (r: seq<seq<byte>>)
    ensures forall i :: 0 <= i < |r| ==> NulTerminated(r[i])
  {
    seq(|args|, i requires 0 <= i < |args| => args[i] + [NUL])
  }

  /** Reading back the slots the loader wrote for NUL-free arguments gives those arguments. */
  lemma {:induction false} ArgStringsOfLoaderTable(args: seq<seq<byte>>)
    requires forall i :: 0 <= i < |args| ==> NUL !in args[i]
    ensures ArgStrings(LoaderTable(args)) == args
  {
    var r := ArgStrings(LoaderTable(args));
    forall i | 0 <= i < |args| ensures r[i] == args[i] {
      ToBytesOfTerminated(args[i], []);
      assert args[i] + [NUL] + [] == args[i] + [NUL];
    }
  }

  /** The arguments a captured `(argc, argv)` pair stands for: slots 0 to argc - 1 read as C strings. */
  function CapturedArgs(argc: CInt, argv: ArgvPtr): (r: seq<seq<byte>>)
    requires WellFormed(argc, argv)
    ensures |r| == argc as int
    ensures argv.Table? ==> forall i :: 0 <= i < |r| ==> r[i] == ToBytes(argv.slots[i])
  {
    match argv
    case Null => []
    case Table(_, slots) => ArgStrings(slots[..argc])
  }

  /**
   * A loader table for NUL-free arguments, captured with their count, is well
   * formed and stands for exactly those arguments.
   */
  lemma CapturedLoaderTable(address: nat, args: seq<seq<byte>>)
    requires 0 < address && |args| < 0x8000_0000 && Offset(address, |args|) < UsizeLimit
    requires forall i :: 0 <= i < |args| ==> NUL !in args[i]
    ensures WellFormed(|args| as CInt, Table(address, LoaderTable(args)))
    ensures CapturedArgs(|args| as CInt, Table(address, LoaderTable(args))) == args
  {
    var slots := LoaderTable(args);
    assert slots[..|args|] == slots;
    ArgStringsOfLoaderTable(args);
  }

  /** The two statics `ARGC` and `ARGV`. */
  class Statics {
    var argc: CInt
    var argv: ArgvPtr

    /** The values the statics have when the process starts: 0 and null. */
    constructor ()
      ensures argc == 0 && argv == Null
      ensures WellFormed(argc, argv) && CapturedArgs(argc, argv) == []
    {
      argc := 0;
      argv := Null;
    }

    /** `capture`: store what the loader passes to the initializer, and nothing else. */
    method Capture(argc: CInt, argv: ArgvPtr)
      modifies this
      ensures this.argc == argc && this.argv == argv
    {
      this.argc := argc;
      this.argv := argv;
    }
  }

  /**
   * The platform iterator: a cursor `next` and a bound `end` into the captured
   * table. Both are kept as slot indices; the addresses they stand for are
   * `Offset(base, next)` and `Offset(base, end)`.
   */
  class Iter {
    /** The C strings the table's slots point to; never written. */
    const slots: seq<seq<byte>>
    /** The address of slot 0, that is of `ARGV`. */
    const base: nat
    const end: nat
    var next: nat

    ghost predicate Valid()
      reads this
    {
      next <= end <= |slots|
      && Offset(base, end) < UsizeLimit
      && forall i :: next <= i < end ==> NulTerminated(slots[i])
    }

    /** The arguments still to come, in order. */
    ghost function Remaining(): seq<seq<byte>>
      reads this
      requires Valid()
    {
      ArgStrings(slots[next..end])
    }

    /** `Iter { next: argv, end }` */
    constructor (slots: seq<seq<byte>>, base: nat, end: nat)
      requires end <= |slots| && Offset(base, end) < UsizeLimit
      requires forall i :: 0 <= i < end ==> NulTerminated(slots[i])
      ensures Valid()
      ensures this.slots == slots && this.base == base && this.end == end && next == 0
    {
      this.slots := slots;
      this.base := base;
      this.end := end;
      next := 0;
    }

    /**
     * `len`: the byte distance between cursor and end divided by the slot
     * width, which is the number of arguments left.
     */
    function Len(): (r: nat)
      reads this
      requires Valid()
      ensures r == end - next
      ensures r == |Remaining()|
    {
      SlotDistanceOfOffsets(base, next, end);
      SlotDistance(Offset(base, next), Offset(base, end))
    }

    /** `size_hint`: both bounds are the exact number of arguments left. */
    function SizeHint(): (r: (nat, Option<nat>))
      reads this
      requires Valid()
      ensures r.1 == Some(r.0)
      ensures r.0 == |Remaining()| == Len()
    {
      var len := Len();
      (len, Some(len))
    }

    /**
     * `next`: exhausted when the cursor is at the end; otherwise the C string
     * in the cursor's slot, with the cursor moved on by one slot.
     */
    method Next() returns (r: Option<seq<byte>>)
      requires Valid()
      modifies this
      ensures Valid()
      ensures r.None? <==> old(next) == end
      ensures r.None? ==> next == old(next)
      ensures r.Some? ==> next == old(next) + 1 && r.value == ToBytes(slots[old(next)])
      ensures r.Some? ==> NUL !in r.value
      ensures r == if old(Remaining()) == [] then None else Some(old(Remaining())[0])
      ensures Remaining() == if r.None? then old(Remaining()) else old(Remaining())[1..]
      ensures Len() == if r.None? then old(Len()) else old(Len()) - 1
    {
      if next == end {
        r := None;
      } else {
        var slot := slots[next];
        var bytes := ToBytes(slot);
        next := next + 1;
        r := Some(bytes);
        assert slots[old(next)..end][1..] == slots[next..end];
      }
    }
  }

  /**
   * `iter`: read `ARGC` and `ARGV` and start a cursor at `argv`, bounded by
   * `argv + argc`. The statics are only read.
   */
  method NewIter(statics: Statics) returns (it: Iter)
    requires WellFormed(statics.argc, statics.argv)
    ensures fresh(it) && it.Valid()
    ensures it.next == 0 && it.end == statics.argc as int
    ensures it.base == Address(statics.argv)
    ensures it.Remaining() == CapturedArgs(statics.argc, statics.argv)
    ensures it.Len() == statics.argc as int
  {
    var argc := statics.argc;
    var argv := statics.argv;
    match argv {
      case Null =>
        it := new Iter([], 0, 0);
      case Table(address, slots) =>
        it := new Iter(slots, address, argc as nat);
        assert slots[0..argc] == slots[..argc];
    }
  }
}
