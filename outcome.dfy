/**
 * `handleError` and `buildSuccess` (src/utils/utils.js:65-87): the tail of every
 * asynchronous store action. Each clears the loading flag, records the error
 * or success message through `commit`, and settles the action's promise
 * through `reject` or `resolve`.
 */
module ActionOutcome {
  import opened Wrappers
  import opened JsValues

  /** The mutation types committed: `types.SHOW_LOADING`, `types.ERROR`, `types.SUCCESS`. */
  datatype MutationType = ShowLoading | SetError | SetSuccess

  /** One call made by a helper: `commit(kind, payload)`, `resolve(value)` or `reject(reason)`. */
  datatype Event =
    | Commit(kind: MutationType, payload: Value)
    | Resolve(value: Value)
    | Reject(reason: Value)

  /** The state a promise settles into. */
  datatype Settlement = Resolved(value: Value) | Rejected(reason: Value)

  /** The store slots the three mutation types write. */
  datatype Store = Store(loading: Value, error: Value, success: Value)

  /** The message recorded when a request failed without a response. */
  const ServerTimeout: string := "SERVER_TIMEOUT_CONNECTION_ERROR"

  /** The effect of one commit on the store. */
  function Mutate(st: Store, kind: MutationType, payload: Value): Store {
    match kind
    case ShowLoading => st.(loading := payload)
    case SetError => st.(error := payload)
    case SetSuccess => st.(success := payload)
  }

  /** The effect of one call on the store: only commits change it. */
  function Apply(st: Store, e: Event): Store {
    if e.Commit? then Mutate(st, e.kind, e.payload) else st
  }

  /** The store after the calls `evs`, in order. */
  function Replay(st: Store, evs: seq<Event>): Store {
    if evs == [] then st else Apply(Replay(st, evs[..|evs| - 1]), evs[|evs| - 1])
  }

  /** The settlement a single call asks for, if it is a `resolve` or a `reject`. */
  function SettlementOf(e: Event): Option<Settlement> {
    match e
    case Commit(_, _) => None
    case Resolve(v) => Some(Resolved(v))
    case Reject(r) => Some(Rejected(r))
  }

  /** The promise's state after the calls `evs`: the first settling call wins, later ones are ignored. */
  function FirstSettlement(evs: seq<Event>): Option<Settlement> {
    if evs == [] then None
    else
      var before := FirstSettlement(evs[..|evs| - 1]);
      if before.Some? then before else SettlementOf(evs[|evs| - 1])
  }

  /** How many settling calls (`resolve` or `reject`) `evs` holds. */
  function SettleCount(evs: seq<Event>): nat {
    if evs == [] then 0
    else SettleCount(evs[..|evs| - 1]) + (if SettlementOf(evs[|evs| - 1]).Some? then 1 else 0)
  }

  /**
   * The collaborators a helper is handed: the store (through `commit`) and the
   * action's pending promise (through `resolve` and `reject`), with the log of
   * the calls made to them.
   */
  class ActionContext {
    const initial: Store
    var store: Store
    var settlement: Option<Settlement>
    var log: seq<Event>

    /** The store and the promise are what the logged calls made of them. */
    ghost predicate Valid()
      reads this
    {
      store == Replay(initial, log) && settlement == FirstSettlement(log)
    }

    constructor (st: Store)
      ensures Valid()
      ensures initial == st && store == st && settlement == None && log == []
    {
      initial := st;
      store := st;
      settlement := None;
      log := [];
    }

    /** `commit(kind, payload)`. */
    method Commit(kind: MutationType, payload: Value)
      requires Valid()
      modifies this
      ensures Valid()
      ensures log == old(log) + [Event.Commit(kind, payload)]
      ensures store == Mutate(old(store), kind, payload)
      ensures settlement == old(settlement)
    {
      log := log + [Event.Commit(kind, payload)];
      assert log[..|log| - 1] == old(log);
      store := Mutate(store, kind, payload);
    }

    /** `resolve(value)`: settles the promise unless it is already settled. */
    method Resolve(value: Value)
      requires Valid()
      modifies this
      ensures Valid()
      ensures log == old(log) + [Event.Resolve(value)]
      ensures store == old(store)
      ensures settlement == if old(settlement).None? then Some(Resolved(value)) else old(settlement)
    {
      log := log + [Event.Resolve(value)];
      assert log[..|log| - 1] == old(log);
      if settlement.None? {
        settlement := Some(Resolved(value));
      }
    }

    /** `reject(reason)`: settles the promise unless it is already settled. */
    method Reject(reason: Value)
      requires Valid()
      modifies this
      ensures Valid()
      ensures log == old(log) + [Event.Reject(reason)]
      ensures store == old(store)
      ensures settlement == if old(settlement).None? then Some(Rejected(reason)) else old(settlement)
    {
      log := log + [Event.Reject(reason)];
      assert log[..|log| - 1] == old(log);
      if settlement.None? {
        settlement := Some(Rejected(reason));
      }
    }
  }

  /**
   * The message `handleError` records: `error.response.data.errors.msg` when
   * `error.response` is truthy, the timeout sentinel otherwise. Reading a
   * property of null or undefined along the way throws a TypeError.
   */
  function ErrorMessage(error: Value): (r: Result<Value, JsError>)
    ensures Nullish(error) ==> r == Err(TypeError)
    ensures r.Err? ==> r.error == TypeError
    ensures !Nullish(error) && !Truthy(Prop(error, "response")) ==> r == Ok(Str(ServerTimeout))
    ensures !Nullish(error) && Truthy(Prop(error, "response")) ==>
      var data := Prop(Prop(error, "response"), "data");
      && (Nullish(data) ==> r == Err(TypeError))
      && (!Nullish(data) && Nullish(Prop(data, "errors")) ==> r == Err(TypeError))
      && (!Nullish(data) && !Nullish(Prop(data, "errors")) ==> r == Ok(Prop(Prop(data, "errors"), "msg")))
  {
    if Nullish(error) then Err(TypeError)
    else
      var response := Prop(error, "response");
      if Truthy(response) then Path(response, ["data", "errors", "msg"])
      else Ok(Str(ServerTimeout))
  }

  /** The calls `handleError` makes once `errMsg` is known. */
  function FailureEvents(error: Value, errMsg: Value): seq<Event> {
    [Event.Commit(ShowLoading, Bool(false)), Event.Commit(SetError, errMsg), Event.Reject(error)]
  }

  /** The calls `buildSuccess` makes: the success commit only for a truthy message. */
  function SuccessEvents(msg: Value, resolveParam: Value): seq<Event> {
    [Event.Commit(ShowLoading, Bool(false))]
    + (if Truthy(msg) then [Event.Commit(SetSuccess, msg)] else [])
    + [Event.Commit(SetError, Null), Event.Resolve(resolveParam)]
  }

  /**
   * `handleError(error, commit, reject)`. When extracting the message throws,
   * nothing is committed and the exception propagates (`thrown`).
   */
  method HandleError(error: Value, ctx: ActionContext) returns (thrown: Option<JsError>)
    requires ctx.Valid()
    modifies ctx
    ensures ctx.Valid()
    ensures ErrorMessage(error).Err? ==>
      && thrown == Some(TypeError)
      && ctx.log == old(ctx.log) && ctx.store == old(ctx.store) && ctx.settlement == old(ctx.settlement)
    ensures ErrorMessage(error).Ok? ==>
      var errMsg := ErrorMessage(error).value;
      && thrown == None
      && ctx.log == old(ctx.log) + FailureEvents(error, errMsg)
      && ctx.store == old(ctx.store).(loading := Bool(false), error := errMsg)
      && ctx.settlement == if old(ctx.settlement).None? then Some(Rejected(error)) else old(ctx.settlement)
  {
    var errMsg := ErrorMessage(error);
    if errMsg.Err? {
      return Some(errMsg.error);
    }
    ctx.Commit(ShowLoading, Bool(false));
    ctx.Commit(SetError, errMsg.value);
    ctx.Reject(error);
    return None;
  }

  /** `buildSuccess(msg, commit, resolve, resolveParam = undefined)`. */
  method BuildSuccess(msg: Value, ctx: ActionContext, resolveParam: Value := Undefined)
    requires ctx.Valid()
    modifies ctx
    ensures ctx.Valid()
    ensures ctx.log == old(ctx.log) + SuccessEvents(msg, resolveParam)
    ensures ctx.store == old(ctx.store).(
      loading := Bool(false),
      success := if Truthy(msg) then msg else old(ctx.store).success,
      error := Null)
    ensures ctx.settlement == if old(ctx.settlement).None? then Some(Resolved(resolveParam)) else old(ctx.settlement)
  {
    ctx.Commit(ShowLoading, Bool(false));
    if Truthy(msg) {
      ctx.Commit(SetSuccess, msg);
    }
    ctx.Commit(SetError, Null);
    ctx.Resolve(resolveParam);
  }

  // ----- Laws of the call log -----

  /** One more call: how it changes the store, the settling count and the promise. */
  lemma Snoc(st: Store, evs: seq<Event>, e: Event)
    ensures Replay(st, evs + [e]) == Apply(Replay(st, evs), e)
    ensures SettleCount(evs + [e]) == SettleCount(evs) + if SettlementOf(e).Some? then 1 else 0
    ensures FirstSettlement(evs + [e]) == if FirstSettlement(evs).Some? then FirstSettlement(evs) else SettlementOf(e)
  {
    assert (evs + [e])[..|evs|] == evs;
  }

  /** A log without settling calls leaves the promise pending. */
  lemma {:induction false} NoSettleIsPending(evs: seq<Event>)
    requires SettleCount(evs) == 0
    ensures FirstSettlement(evs) == None
    decreases |evs|
  {
    if evs != [] {
      NoSettleIsPending(evs[..|evs| - 1]);
    }
  }

  /**
   * handleError on a pending action: the log then holds exactly one settling
   * call, its last, which rejects with the original error object; and the
   * store already holds `loading = false` and the error message when that
   * reject happens.
   */
  lemma HandleErrorSettlesOnce(st: Store, t: seq<Event>, error: Value, errMsg: Value)
    requires SettleCount(t) == 0
    ensures var t' := t + FailureEvents(error, errMsg);
      && SettleCount(t') == 1
      && t'[|t'| - 1] == Event.Reject(error)
      && FirstSettlement(t') == Some(Rejected(error))
      && Replay(st, t'[..|t'| - 1]) == Replay(st, t')
      && Replay(st, t') == Replay(st, t).(loading := Bool(false), error := errMsg)
  {
    var t1 := t + [Event.Commit(ShowLoading, Bool(false))];
    var t2 := t1 + [Event.Commit(SetError, errMsg)];
    var t3 := t2 + [Event.Reject(error)];
    assert t3 == t + FailureEvents(error, errMsg);
    assert t3[..|t3| - 1] == t2;
    NoSettleIsPending(t);
    Snoc(st, t, Event.Commit(ShowLoading, Bool(false)));
    Snoc(st, t1, Event.Commit(SetError, errMsg));
    Snoc(st, t2, Event.Reject(error));
  }

  /**
   * buildSuccess on a pending action: exactly one settling call, its last,
   * which resolves with `resolveParam`; the store is final (loading false,
   * error null, success set only for a truthy message) when it happens.
   */
  lemma SuccessSettlesOnce(st: Store, t: seq<Event>, msg: Value, resolveParam: Value)
    requires SettleCount(t) == 0
    ensures var t' := t + SuccessEvents(msg, resolveParam);
      && SettleCount(t') == 1
      && t'[|t'| - 1] == Event.Resolve(resolveParam)
      && FirstSettlement(t') == Some(Resolved(resolveParam))
      && Replay(st, t'[..|t'| - 1]) == Replay(st, t')
      && Replay(st, t') == Replay(st, t).(
           loading := Bool(false),
           success := if Truthy(msg) then msg else Replay(st, t).success,
           error := Null)
  {
    var t1 := t + [Event.Commit(ShowLoading, Bool(false))];
    var t2 := t1 + if Truthy(msg) then [Event.Commit(SetSuccess, msg)] else [];
    var t3 := t2 + [Event.Commit(SetError, Null)];
    var t4 := t3 + [Event.Resolve(resolveParam)];
    assert t4 == t + SuccessEvents(msg, resolveParam);
    assert t4[..|t4| - 1] == t3;
    NoSettleIsPending(t);
    Snoc(st, t, Event.Commit(ShowLoading, Bool(false)));
    if Truthy(msg) {
      Snoc(st, t1, Event.Commit(SetSuccess, msg));
    } else {
      assert t2 == t1;
    }
    Snoc(st, t2, Event.Commit(SetError, Null));
    Snoc(st, t3, Event.Resolve(resolveParam));
  }

  /** buildSuccess commits the message to the success slot exactly when it is truthy, and always clears the error afterwards. */
  lemma SuccessCommitIffTruthy(msg: Value, resolveParam: Value)
    ensures Event.Commit(SetSuccess, msg) in SuccessEvents(msg, resolveParam) <==> Truthy(msg)
    ensures var seg := SuccessEvents(msg, resolveParam);
      seg[0] == Event.Commit(ShowLoading, Bool(false)) && seg[|seg| - 2] == Event.Commit(SetError, Null)
  {
  }

  /** handleError never resolves. */
  lemma FailureNeverResolves(error: Value, errMsg: Value)
    ensures forall e :: e in FailureEvents(error, errMsg) ==> !e.Resolve?
  {
  }
}
