/**
 * `src/routers/programmaticRouter.ts`: the `Mastro` class, a router whose routes are
 * added one call at a time and then handed to the server or the static generator.
 */
module ProgrammaticRouter {
  import opened Common
  import opened Routes

  /** `RouteOpts`: a bare handler, or a handler with its static-generation options. */
  datatype RouteOpts =
    | Bare(handler: Export)
    | Full(handler: Export, getStaticPaths: Option<Export>, pregenerate: Option<Export>)

  /** `if (typeof opts === "function") opts = { handler: opts }`. */
  function Normalize(opts: RouteOpts): (r: RouteOpts)
    ensures r.Full? && r.handler == opts.handler
    ensures opts.Full? ==> r == opts
    ensures opts.Bare? ==> r.getStaticPaths == None && r.pregenerate == None
  {
    match opts
    case Bare(h) => Full(h, None, None)
    case Full(_, _, _) => opts
  }

  /** The route `addRoute` stores: named after its pathname, options copied over. */
  function Stored(verb: string, pathname: string, opts: RouteOpts): (r: Route)
    ensures r.name == pathname && r.pathname == pathname && r.verb == verb
    ensures r.handler == opts.handler
    ensures r.getStaticPaths == Normalize(opts).getStaticPaths && r.pregenerate == Normalize(opts).pregenerate
  {
    var full := Normalize(opts);
    Route(pathname, full.handler, verb, pathname, full.getStaticPaths, full.pregenerate)
  }

  /**
   * The options object `createHandler` and `generate` pass on; only `routes` is modelled.
   * `opts.routes = this.routes` shares the router's array rather than copying it, so the
   * property is modelled as a reference to the router whose routes it reads.
   */
  class Options {
    var router: Mastro?

    constructor()
      ensures router == null && Routes() == None
    {
      router := null;
    }

    /** `opts.routes`: absent until wired, then whatever the router holds now. */
    function Routes(): Option<seq<Route>>
      reads this, router
    {
      if router == null then None else Some(router.routes)
    }
  }

  class Mastro {
    var routes: seq<Route>

    constructor()
      ensures routes == []
    {
      routes := [];
    }

    /** `addRoute`: appends one route and returns the router itself. */
    method AddRoute(verb: string, pathname: string, opts: RouteOpts) returns (self: Mastro)
      modifies this
      ensures routes == old(routes) + [Stored(verb, pathname, opts)]
      ensures self == this
    {
      routes := routes + [Stored(verb, pathname, opts)];
      self := this;
    }

    method Get(pathname: string, opts: RouteOpts) returns (self: Mastro)
      modifies this
      ensures routes == old(routes) + [Stored("GET", pathname, opts)]
      ensures self == this
    {
      self := AddRoute("GET", pathname, opts);
    }

    method Post(pathname: string, opts: RouteOpts) returns (self: Mastro)
      modifies this
      ensures routes == old(routes) + [Stored("POST", pathname, opts)]
      ensures self == this
    {
      self := AddRoute("POST", pathname, opts);
    }

    method Put(pathname: string, opts: RouteOpts) returns (self: Mastro)
      modifies this
      ensures routes == old(routes) + [Stored("PUT", pathname, opts)]
      ensures self == this
    {
      self := AddRoute("PUT", pathname, opts);
    }

    method Delete(pathname: string, opts: RouteOpts) returns (self: Mastro)
      modifies this
      ensures routes == old(routes) + [Stored("DELETE", pathname, opts)]
      ensures self == this
    {
      self := AddRoute("DELETE", pathname, opts);
    }

    /**
     * `createHandler` (and, alike, `generate`): the given options object, or a new `{}`,
     * receives the router's routes; that object is what is passed on.
     */
    method WireOptions(opts: Options?) returns (used: Options)
      modifies opts
      ensures used.router == this && used.Routes() == Some(routes)
      ensures opts != null ==> used == opts
      ensures opts == null ==> fresh(used)
    {
      if opts == null {
        used := new Options();
      } else {
        used := opts;
      }
      used.router := this;
    }
  }

  /**
   * The routes are shared, not copied: a route added after `createHandler` or `generate`
   * has wired the options is seen through them.
   */
  method AddedAfterWiringIsSeen(m: Mastro, opts: Options?, verb: string, pathname: string, ro: RouteOpts)
    returns (used: Options)
    modifies m, opts
    ensures used.Routes() == Some(old(m.routes) + [Stored(verb, pathname, ro)])
  {
    used := m.WireOptions(opts);
    var self := m.AddRoute(verb, pathname, ro);
  }

  /**
   * Chained calls as in the router's own usage: each call returns the same router,
   * and the routes come out in call order.
   */
  method Chained(root: Export, posted: Export, index: Export, detail: Export) returns (m: Mastro)
    ensures fresh(m)
    ensures m.routes == [
      Stored("GET", "/", Bare(root)),
      Stored("POST", "/foo", Bare(posted)),
      Stored("GET", "/blog/", Bare(index)),
      Stored("GET", "/blog/:slug/", Bare(detail))]
  {
    m := new Mastro();
    var m1 := m.Get("/", Bare(root));
    var m2 := m1.Post("/foo", Bare(posted));
    var m3 := m2.Get("/blog/", Bare(index));
    var m4 := m3.Get("/blog/:slug/", Bare(detail));
  }
}
