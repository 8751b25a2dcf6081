/**
 * The handler registry (`CommandRouter`): handlers kept in registration
 * order, and resolution that picks the first handler accepting a command type.
 * Handlers are opaque values; `canHandle` stands for their `can_handle`.
 */
module CommandRouter {
  import opened Wrappers
  import opened CommandTypes
  import opened Commands

  /**
   * The position of the first element satisfying `accepts`: Rust's
   * `iter().find`.
   */
  function FindFirst<H>(hs: seq<H>, accepts: H -> bool): (r: Option<nat>)
    ensures r.Some? ==> r.value < |hs| && accepts(hs[r.value])
    ensures r.Some? ==> forall j :: 0 <= j < r.value ==> !accepts(hs[j])
    ensures r.None? <==> forall j :: 0 <= j < |hs| ==> !accepts(hs[j])
    decreases |hs|
  {
    if |hs| == 0 then None
    else if accepts(hs[0]) then Some(0)
    else
      match FindFirst(hs[1..], accepts)
      case None => None
      case Some(i) => Some(i + 1)
  }

  datatype Router<H> = Router(handlers: seq<H>)

  /** `new`: no handlers. */
  function New<H>(): (r: Router<H>)
    ensures |r.handlers| == 0
  {
    Router([])
  }

  /** `with_handlers`: exactly the given handlers, in the given order. */
  function WithHandlers<H>(hs: seq<H>): (r: Router<H>)
    ensures r.handlers == hs
  {
    Router(hs)
  }

  /** `register`: the handler goes last; earlier registrations keep their places. */
  function Register<H>(router: Router<H>, h: H): (r: Router<H>)
    ensures |r.handlers| == |router.handlers| + 1
    ensures r.handlers[..|router.handlers|] == router.handlers
    ensures r.handlers[|router.handlers|] == h
  {
    Router(router.handlers + [h])
  }

  /** `handlers`: the registered handlers in registration order. */
  function Handlers<H>(router: Router<H>): (r: seq<H>)
    ensures |r| == |router.handlers|
    ensures forall i :: 0 <= i < |r| ==> r[i] == router.handlers[i]
  {
    router.handlers
  }

  /**
   * `resolve`: the earliest-registered handler accepting the command's type,
   * or NotFound.
   */
  function Resolve<H>(router: Router<H>, canHandle: (H, string) -> bool, cmd: AnyCommand)
    : (r: DomainResult<H>)
    ensures r.Ok? <==> exists i :: 0 <= i < |router.handlers| && canHandle(router.handlers[i], CommandType(cmd))
    ensures r.Ok? ==> exists i :: 0 <= i < |router.handlers| && router.handlers[i] == r.value
                        && canHandle(r.value, CommandType(cmd))
                        && forall j :: 0 <= j < i ==> !canHandle(router.handlers[j], CommandType(cmd))
    ensures r.Err? ==> r.error.code == NotFound && r.error.details.None?
  {
    var t := CommandType(cmd);
    match FindFirst(router.handlers, h => canHandle(h, t))
    case Some(i) => Ok(router.handlers[i])
    case None =>
      Err(DomainError(NotFound, "No handler registered for command type " + t, None))
  }

  /** A router built by registering handlers one by one lists them in that order. */
  function RegisterAll<H>(router: Router<H>, hs: seq<H>): Router<H>
    decreases |hs|
  {
    if |hs| == 0 then router else RegisterAll(Register(router, hs[0]), hs[1..])
  }

  lemma {:induction false} RegisterAllAppends<H>(router: Router<H>, hs: seq<H>)
    ensures Handlers(RegisterAll(router, hs)) == router.handlers + hs
    decreases |hs|
  {
    if |hs| > 0 {
      RegisterAllAppends(Register(router, hs[0]), hs[1..]);
      assert router.handlers + [hs[0]] + hs[1..] == router.handlers + hs;
    }
  }

  /** Registering handlers one by one is the same as `with_handlers`. */
  lemma RegisteringEqualsWithHandlers<H>(hs: seq<H>)
    ensures RegisterAll(New<H>(), hs) == WithHandlers(hs)
  {
    RegisterAllAppends(New<H>(), hs);
  }

  /**
   * A later registration never takes over a type an earlier handler already
   * resolves, and it resolves a previously unhandled type iff it accepts it.
   */
  lemma RegisterKeepsEarlierWinner<H>(router: Router<H>, canHandle: (H, string) -> bool,
                                      cmd: AnyCommand, h: H)
    ensures Resolve(router, canHandle, cmd).Ok? ==>
              Resolve(Register(router, h), canHandle, cmd) == Resolve(router, canHandle, cmd)
    ensures Resolve(router, canHandle, cmd).Err? ==>
              (Resolve(Register(router, h), canHandle, cmd).Ok? <==> canHandle(h, CommandType(cmd)))
  {
    var t := CommandType(cmd);
    var hs := router.handlers;
    var hs2 := Register(router, h).handlers;
    var accepts := (x: H) => canHandle(x, t);
    FindFirstExtend(hs, h, accepts);
    if Resolve(router, canHandle, cmd).Err? && canHandle(h, t) {
      assert hs2[|hs|] == h;
    }
  }

  lemma {:induction false} FindFirstExtend<H>(hs: seq<H>, h: H, accepts: H -> bool)
    ensures FindFirst(hs, accepts).Some? ==> FindFirst(hs + [h], accepts) == FindFirst(hs, accepts)
    decreases |hs|
  {
    if |hs| > 0 && !accepts(hs[0]) {
      assert (hs + [h])[1..] == hs[1..] + [h];
      FindFirstExtend(hs[1..], h, accepts);
    }
  }
}
