/**
 * The public surface: `argv::iter()` and `argv::Iter`, which forward every
 * call to the platform iterator unchanged.
 */
module Argv {

  import opened Optional
  import opened CStr
  import Unix

  class Iter {
    const platformSpecific: Unix.Iter

    ghost predicate Valid()
      reads this, platformSpecific
    {
      platformSpecific.Valid()
    }

    /** The arguments still to come, in order. */
    ghost function Remaining(): seq<seq<byte>>
      reads this, platformSpecific
      requires Valid()
    {
      platformSpecific.Remaining()
    }

    constructor (platformSpecific: Unix.Iter)
      ensures this.platformSpecific == platformSpecific
    {
      this.platformSpecific := platformSpecific;
    }

    /** `next`: the platform iterator's `next`. */
    method Next() returns (r: Option<seq<byte>>)
      requires Valid()
      modifies platformSpecific
      ensures Valid()
      ensures r == if old(Remaining()) == [] then None else Some(old(Remaining())[0])
      ensures Remaining() == if r.None? then old(Remaining()) else old(Remaining())[1..]
      ensures Len() == if r.None? then old(Len()) else old(Len()) - 1
    {
      r := platformSpecific.Next();
    }

    /** `size_hint`: the platform iterator's, so both bounds are exact. */
    function SizeHint(): (r: (nat, Option<nat>))
      reads this, platformSpecific
      requires Valid()
      ensures r == platformSpecific.SizeHint()
      ensures r.1 == Some(r.0) && r.0 == |Remaining()|
    {
      platformSpecific.SizeHint()
    }

    /** `len`: the platform iterator's, the number of arguments left. */
    function Len(): (r: nat)
      reads this, platformSpecific
      requires Valid()
      ensures r == platformSpecific.Len()
      ensures r == |Remaining()|
    {
      platformSpecific.Len()
    }
  }

  /** `argv::iter()`: wrap a fresh platform iterator. */
  method NewIter(statics: Unix.Statics) returns (it: Iter)
    requires Unix.WellFormed(statics.argc, statics.argv)
    ensures fresh(it) && fresh(it.platformSpecific) && it.Valid()
    ensures it.Remaining() == Unix.CapturedArgs(statics.argc, statics.argv)
    ensures it.Len() == statics.argc as int
  {
    var platformSpecific := Unix.NewIter(statics);
    it := new Iter(platformSpecific);
  }
}
