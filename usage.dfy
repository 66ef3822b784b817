/**
 * What callers of `argv::iter()` can rely on: a `for` loop over a fresh
 * iterator sees the captured arguments in table order, a second iterator sees
 * the same, an uncaptured process sees none, and the `print` example run as
 * `print a b c` sees its own path followed by `a`, `b`, `c`.
 */
module Usage {

  import opened Optional
  import opened CStr
  import Unix
  import Argv

  /** Drive an iterator to exhaustion, as `for arg in it` does, collecting what it yields. */
  method Drain(it: Argv.Iter) returns (args: seq<seq<byte>>)
    requires it.Valid()
    modifies it.platformSpecific
    ensures it.Valid() && it.Remaining() == [] && it.Len() == 0
    ensures args == old(it.Remaining())
  {
    ghost var all := it.Remaining();
    args := [];
    var arg := it.Next();
    while arg.Some?
      invariant it.Valid()
      invariant arg.Some? ==> all == args + [arg.value] + it.Remaining()
      invariant arg.None? ==> all == args && it.Remaining() == []
      decreases if arg.Some? then |it.Remaining()| + 1 else 0
    {
      args := args + [arg.value];
      arg := it.Next();
    }
  }

  /**
   * Two iterators obtained one after the other yield the same arguments: the
   * captured slots 0 to argc - 1, in order, each free of NUL.
   */
  method IterTwice(statics: Unix.Statics) returns (first: seq<seq<byte>>, second: seq<seq<byte>>)
    requires Unix.WellFormed(statics.argc, statics.argv)
    ensures first == second
    ensures |first| == statics.argc as int
    ensures statics.argv.Table? ==>
      forall i :: 0 <= i < |first| ==> first[i] == ToBytes(statics.argv.slots[i])
    ensures forall i :: 0 <= i < |first| ==> NUL !in first[i]
  {
    var it := Argv.NewIter(statics);
    first := Drain(it);
    var again := Argv.NewIter(statics);
    second := Drain(again);
  }

  /** Before anything is captured, `ARGC` is 0, and the first `next` reports exhaustion. */
  method NextBeforeCapture() returns (r: Option<seq<byte>>, len: nat)
    ensures r == None && len == 0
  {
    var statics := new Unix.Statics();
    var it := Argv.NewIter(statics);
    len := it.Len();
    r := it.Next();
  }

  /** The bytes of an ASCII string literal. */
  function Ascii(s: string): (r: seq<byte>)
    requires forall i :: 0 <= i < |s| ==> 0 < s[i] as int < 0x80
    ensures NUL !in r
  {
    seq(|s|, i requires 0 <= i < |s| => s[i] as int as byte)
  }

  /** The arguments of `target/debug/examples/print a b c`. */
  function PrintExampleArgs(): seq<seq<byte>> {
    [Ascii("target/debug/examples/print"), Ascii("a"), Ascii("b"), Ascii("c")]
  }

  /**
   * Capture the loader's `argc` and `argv` for `print a b c`, then print every
   * argument of `argv::iter()`: the lines are the program path, `a`, `b`, `c`.
   */
  method RunPrintExample(address: nat) returns (lines: seq<seq<byte>>)
    requires 0 < address < 0x1_0000_0000
    ensures lines == PrintExampleArgs()
  {
    var args := PrintExampleArgs();
    Unix.CapturedLoaderTable(address, args);
    var statics := new Unix.Statics();
    statics.Capture(4, Unix.Table(address, Unix.LoaderTable(args)));
    var it := Argv.NewIter(statics);
    lines := Drain(it);
  }
}
