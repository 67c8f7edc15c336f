/**
 * The compile-time scope chain (`Frame` of the runtime module, used here only while compiling).
 * A frame maps template variable names to the identifiers that the generated code binds them
 * to; it never holds data values.  Each frame points to its parent; `Top` is the outermost.
 */
module Frames {
  import opened Wrappers

  datatype Frame =
    | Top(vars: map<string, string>)
    | Child(vars: map<string, string>, parent: Frame)
  {
    /** The enclosing frame, absent for the outermost one. */
    function Parent(): (r: Option<Frame>)
      ensures r.Some? <==> Child?
    {
      match this
      case Top(_) => None
      case Child(_, p) => Some(p)
    }

    /** Number of frames on the chain. */
    function Depth(): (d: nat)
      ensures d >= 1
      ensures Child? ==> d == parent.Depth() + 1
    {
      match this
      case Top(_) => 1
      case Child(_, p) => 1 + p.Depth()
    }

    /** Every name bound somewhere on the chain. */
    function Names(): set<string>
    {
      match this
      case Top(vs) => vs.Keys
      case Child(vs, p) => vs.Keys + p.Names()
    }

    /** `frame.push()`: a new, empty frame whose parent is this one. */
    function Push(): (r: Frame)
      ensures r.Parent() == Some(this) && r.vars == map[]
      ensures r.Depth() == Depth() + 1
    {
      Child(map[], this)
    }

    /** `frame.pop()`: the parent frame, absent at the outermost frame. */
    function Pop(): (r: Option<Frame>)
      ensures r == Parent()
      ensures r.Some? ==> r.value.Depth() == Depth() - 1
    {
      Parent()
    }

    /** `frame.set(name, id)`: bind `name` in this frame only; the parents are untouched. */
    function Set(name: string, id: string): (r: Frame)
      ensures r.Parent() == Parent() && r.Depth() == Depth()
      ensures r.vars == vars[name := id]
    {
      match this
      case Top(vs) => Top(vs[name := id])
      case Child(vs, p) => Child(vs[name := id], p)
    }

    /** `frame.lookup(name)`: the binding of the innermost frame that binds `name`. */
    function Lookup(name: string): (r: Option<string>)
      ensures r.Some? <==> name in Names()
      ensures name in vars ==> r == Some(vars[name])
      ensures name !in vars && Child? ==> r == parent.Lookup(name)
      ensures name !in vars && Top? ==> r == None
    {
      if name in vars then Some(vars[name])
      else match this
        case Top(_) => None
        case Child(_, p) => p.Lookup(name)
    }
  }

  /** A fresh outermost frame, as `new Frame()` creates it. */
  function NewFrame(): (r: Frame)
    ensures r.Parent() == None && r.Names() == {}
  {
    Top(map[])
  }

  /** Binding a name makes it resolve to exactly that identifier, and leaves every other name alone. */
  lemma {:induction false} LookupAfterSet(f: Frame, name: string, id: string, other: string)
    ensures f.Set(name, id).Lookup(name) == Some(id)
    ensures other != name ==> f.Set(name, id).Lookup(other) == f.Lookup(other)
  {
  }

  /** A freshly pushed frame shadows nothing: lookups see through it to the parent. */
  lemma {:induction false} LookupThroughPush(f: Frame, name: string)
    ensures f.Push().Lookup(name) == f.Lookup(name)
  {
  }

  /** Popping a pushed frame gives back the original frame. */
  lemma PopAfterPush(f: Frame)
    ensures f.Push().Pop() == Some(f)
  {
  }
}
