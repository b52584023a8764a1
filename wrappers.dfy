/** The Result and Option wrappers shared by every module of the model. */
module Wrappers {

  /** A value that may be absent: JavaScript `undefined`/`null` become None. */
  datatype Option<+T> = None | Some(value: T) {
    function GetOr(default: T): T {
      match this
      case Some(v) => v
      case None => default
    }
  }

  /** The outcome of an operation that may throw: Err carries the error's message. */
  datatype Result<+T> = Ok(value: T) | Err(error: string)

  /** `f` applied to every element in order; the first error ends the run. */
  function CollectAll<T, U>(f: T -> Result<U>, s: seq<T>): Result<seq<U>>
    decreases |s|
  {
    if s == [] then Ok([])
    else
      var front := CollectAll(f, s[..|s| - 1]);
      if front.Err? then front
      else match f(s[|s| - 1])
        case Err(e) => Err(e)
        case Ok(a) => Ok(front.value + [a])
  }

  lemma CollectAllSnoc<T, U>(f: T -> Result<U>, s: seq<T>, x: T)
    ensures var front := CollectAll(f, s);
      CollectAll(f, s + [x])
        == if front.Err? then front else if f(x).Err? then Err(f(x).error) else Ok(front.value + [f(x).value])
  {
    assert (s + [x])[..|s|] == s;
  }

  /** The run succeeds exactly when every element succeeds. */
  lemma {:induction false} CollectAllOk<T, U>(f: T -> Result<U>, s: seq<T>)
    ensures CollectAll(f, s).Ok? <==> forall i | 0 <= i < |s| :: f(s[i]).Ok?
    decreases |s|
  {
    if s != [] {
      var front := s[..|s| - 1];
      CollectAllOk(f, front);
      assert forall j | 0 <= j < |front| :: front[j] == s[j];
    }
  }

  /** A successful run holds each element's value at its position. */
  lemma {:induction false} CollectAllValues<T, U>(f: T -> Result<U>, s: seq<T>)
    ensures var r := CollectAll(f, s);
      r.Ok? ==> |r.value| == |s| && forall i | 0 <= i < |s| :: f(s[i]) == Ok(r.value[i])
    decreases |s|
  {
    if s != [] {
      var front := s[..|s| - 1];
      CollectAllValues(f, front);
      assert forall j | 0 <= j < |front| :: front[j] == s[j];
    }
  }

  /** JavaScript truthiness of an optional string: undefined and "" are both falsy. */
  predicate Truthy(o: Option<string>) {
    o.Some? && o.value != ""
  }

  /** `o ?? d` for an optional string (only undefined/null fall back, "" is kept). */
  function OrElse(o: Option<string>, d: string): string {
    o.GetOr(d)
  }
}
