/**
 * `formatErrorMessages` (src/utils/utils.js:15-34): turns an error payload into
 * the list of translated messages, or null when there is no error.
 */
module ErrorMessages {
  import opened Wrappers
  import opened JsValues

  /** The translated message for error code `code` under namespace `ns`: `i18n.t(`${ns}.${code}`)`. */
  function Localize(t: string -> string, ns: string, code: Value): string {
    t(ns + "." + ToString(code))
  }

  /** `JSON.parse(JSON.stringify(msg))`: undefined stringifies to undefined, which does not parse. */
  function JsonRoundTrip(msg: Value): (r: Result<Value, JsError>)
    ensures msg.Undefined? <==> r == Err(SyntaxError)
    ensures !msg.Undefined? ==> r == Ok(Clone(msg))
    ensures Plain(msg) ==> r == Ok(msg)
  {
    if msg.Undefined? then Err(SyntaxError)
    else if Plain(msg) then
      ClonePlainIdentity(msg);
      Ok(Clone(msg))
    else Ok(Clone(msg))
  }

  /** An array element whose `msg` can be read once cloned: not null, undefined or NaN. */
  predicate Readable(e: Value) {
    !(e.Null? || e.Undefined? || e.NaN?)
  }

  /**
   * The formatter. `t` is the translator `i18n.t`. Null gives null; an array
   * gives one translation per element, in order, of the element's `msg`; any
   * other value gives the single translation of the value itself.
   */
  method FormatErrorMessages(t: string -> string, ns: string, msg: Value)
    returns (r: Result<Option<seq<string>>, JsError>)
    ensures msg.Null? <==> r == Ok(None)
    ensures msg.Undefined? ==> r == Err(SyntaxError)
    ensures !msg.Null? && !msg.Undefined? && !msg.Arr? ==> r == Ok(Some([Localize(t, ns, msg)]))
    ensures msg.Arr? ==> (r.Ok? <==> forall i :: 0 <= i < |msg.elems| ==> Readable(msg.elems[i]))
    ensures msg.Arr? && r.Err? ==> r.error == TypeError
    ensures msg.Arr? && r.Ok? ==>
      && r.value.Some?
      && |r.value.value| == |msg.elems|
      && forall i :: 0 <= i < |msg.elems| ==>
           r.value.value[i] == Localize(t, ns, Prop(Clone(msg.elems[i]), "msg"))
  {
    var errorArray: seq<string> := [];
    if msg != Null {
      var json := JsonRoundTrip(msg);
      if json.Err? {
        return Err(json.error);
      }
      CloneIsPlain(msg);
      if json.value.Arr? {
        var es := json.value.elems;
        var i := 0;
        while i < |es|
          invariant 0 <= i <= |es|
          invariant |errorArray| == i
          invariant forall j :: 0 <= j < i ==> Readable(msg.elems[j])
          invariant forall j :: 0 <= j < i ==> errorArray[j] == Localize(t, ns, Prop(Clone(msg.elems[j]), "msg"))
        {
          if Nullish(es[i]) {
            return Err(TypeError);
          }
          errorArray := errorArray + [Localize(t, ns, Prop(es[i], "msg"))];
          i := i + 1;
        }
      } else {
        errorArray := errorArray + [Localize(t, ns, msg)];
      }
      assert !msg.Arr? ==> errorArray == [Localize(t, ns, msg)];
      return Ok(Some(errorArray));
    } else {
      return Ok(None);
    }
  }
}
