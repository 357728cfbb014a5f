/**
 * Domain names and domain handles. A domain is named by a string; the name
 * "comb" stands for the unclocked domain, which the builder records as `None`.
 */
module Domains {
  import opened Wrappers
  import opened Errors

  /** The domain a statement is added to: `None` for the unclocked domain. */
  type Domain = Option<string>

  /** The domain a name looked up on the proxy refers to: "comb" is the unclocked one. */
  function DomainOf(name: string): (d: Domain)
    ensures d == None <==> name == "comb"
    ensures d.Some? ==> d.value == name
  {
    if name == "comb" then None else Some(name)
  }

  /**
   * How an error message names a domain. The printed name looks up the same
   * domain again, except for a clocked domain that is itself called "comb".
   */
  function HumanName(d: Domain): (name: string)
    ensures d != Some("comb") ==> DomainOf(name) == d
  {
    match d
    case None => "comb"
    case Some(name) => name
  }

  /** Every domain name can be read back from the domain it refers to. */
  lemma NameRoundTrip(name: string)
    ensures HumanName(DomainOf(name)) == name
  {
  }

  /**
   * Only "comb" refers to the unclocked domain, and two different names never
   * refer to the same domain.
   */
  lemma DomainOfInjective(a: string, b: string)
    ensures DomainOf(a) == None <==> a == "comb"
    ensures DomainOf(a) == DomainOf(b) <==> a == b
  {
    NameRoundTrip(a);
    NameRoundTrip(b);
  }

  /** A domain handle: appends through it are made at `depth` into `domain`. */
  datatype Handle = Handle(depth: int, domain: Domain)

  /**
   * `d[name]` on a domain proxy whose depth is `depth`, and `d.<name>` for a
   * name that is not one of the proxy's own attributes (see `ReadAttr`).
   */
  function HandleOf(depth: int, name: string): (h: Handle)
    ensures h.depth == depth && HumanName(h.domain) == name
    ensures h.domain == None <==> name == "comb"
  {
    Handle(depth, DomainOf(name))
  }

  /**
   * The proxy's own attributes, `_builder` and `_depth`: ordinary attribute
   * lookup finds them, so `d.<name>` never reaches the name mapping for them.
   */
  predicate IsProxyAttribute(name: string)
  {
    name == "_depth" || name == "_builder"
  }

  /** What reading `d.<name>` yields. */
  datatype AttrRead = DepthRead(depth: int) | BuilderRead | HandleRead(handle: Handle)

  /**
   * `d.<name>` on a domain proxy whose depth is `depth`: the proxy's depth for
   * `_depth`, its builder for `_builder`, and a domain handle for any other name.
   */
  function ReadAttr(depth: int, name: string): (r: AttrRead)
    ensures r == DepthRead(depth) <==> name == "_depth"
    ensures r == BuilderRead <==> name == "_builder"
    ensures r.HandleRead? ==> r.handle.depth == depth && HumanName(r.handle.domain) == name
    ensures !IsProxyAttribute(name) ==> r == HandleRead(HandleOf(depth, name))
  {
    if name == "_depth" then DepthRead(depth)
    else if name == "_builder" then BuilderRead
    else HandleRead(HandleOf(depth, name))
  }

  /**
   * `d.<name>` and `d[name]` give the same handle exactly for the names that
   * are not the proxy's own attributes; `d["_depth"]` is a handle to a domain
   * named "_depth" while `d._depth` is the depth.
   */
  lemma AttrAndItem(depth: int, name: string)
    ensures ReadAttr(depth, name) == HandleRead(HandleOf(depth, name)) <==> !IsProxyAttribute(name)
  {
  }

  /** A value assigned to an attribute of the domain proxy. */
  datatype AttrValue = HandleValue(handle: Handle) | OtherValue

  /** What the proxy does with `d.<name> = value`. */
  datatype AttrWrite = StoreDepth | Discard | Reject(error: Error)

  /**
   * `d.<name> = value`. The proxy's own depth may be written; a handle written
   * back (what `d.<name> += stmts` does after appending) is discarded; any other
   * value is refused, so a domain is never replaced.
   */
  function AssignAttr(name: string, value: AttrValue): (w: AttrWrite)
    ensures w == StoreDepth <==> name == "_depth"
    ensures name != "_depth" ==> (w == Discard <==> value.HandleValue?)
    ensures w.Reject? ==> w.error == DomainAssigned(name)
  {
    if name == "_depth" then StoreDepth
    else if !value.HandleValue? then Reject(DomainAssigned(name))
    else Discard
  }
}
