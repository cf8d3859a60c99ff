/** Option and Result, and the one way the engine combines partial results:
    repeated `list.extend` in which a raised exception escapes at once. */
module Wrappers {

  datatype Option<+T> = None | Some(value: T)

  /** `Err` stands for an exception that escapes the Python function. */
  datatype Result<+T, +E> = Ok(value: T) | Err(error: E)

  /** The concatenation of the lists, in order. */
  function Flatten<T>(xss: seq<seq<T>>): seq<T>
  {
    if |xss| == 0 then [] else Flatten(xss[..|xss| - 1]) + xss[|xss| - 1]
  }

  /** A loop `for step in steps: acc.extend(step())` started on an empty list:
      the first step that raises ends the loop with its exception,
      otherwise the lists are concatenated in order. */
  function JoinAll<T, E>(rs: seq<Result<seq<T>, E>>): Result<seq<T>, E>
  {
    if |rs| == 0 then Ok([])
    else match JoinAll(rs[..|rs| - 1])
      case Err(e) => Err(e)
      case Ok(xs) =>
        match rs[|rs| - 1]
        case Err(e) => Err(e)
        case Ok(ys) => Ok(xs + ys)
  }

  /** One more step of the loop. */
  lemma JoinAllSnoc<T, E>(rs: seq<Result<seq<T>, E>>, i: nat)
    requires i < |rs|
    ensures JoinAll(rs[..i + 1]) ==
      match JoinAll(rs[..i])
      case Err(e) => Err(e)
      case Ok(xs) =>
        match rs[i]
        case Err(e) => Err(e)
        case Ok(ys) => Ok(xs + ys)
  {
    assert rs[..i + 1][..i] == rs[..i];
  }

  /** Once a prefix of the steps has raised, the later steps change nothing. */
  lemma {:induction false} JoinAllErrPersists<T, E>(rs: seq<Result<seq<T>, E>>, n: nat)
    requires n <= |rs| && JoinAll(rs[..n]).Err?
    ensures JoinAll(rs) == JoinAll(rs[..n])
    decreases |rs| - n
  {
    if n < |rs| {
      var init := rs[..|rs| - 1];
      assert init[..n] == rs[..n];
      JoinAllErrPersists(init, n);
    } else {
      assert rs[..n] == rs;
    }
  }

  /** The exception that escapes is the one of the first step that raises. */
  lemma {:induction false} JoinAllFirstErr<T, E>(rs: seq<Result<seq<T>, E>>, i: nat)
    requires i < |rs| && rs[i].Err?
    requires forall k :: 0 <= k < i ==> rs[k].Ok?
    ensures JoinAll(rs) == rs[i]
  {
    JoinAllOkPrefix(rs[..i]);
    assert rs[..i + 1][..i] == rs[..i];
    assert JoinAll(rs[..i + 1]) == rs[i];
    JoinAllErrPersists(rs, i + 1);
  }

  /** When no step raises, the result is the in-order concatenation of every step's list. */
  lemma {:induction false} JoinAllOk<T, E>(rs: seq<Result<seq<T>, E>>)
    requires forall k :: 0 <= k < |rs| ==> rs[k].Ok?
    ensures JoinAll(rs) == Ok(Flatten(seq(|rs|, k requires 0 <= k < |rs| && rs[k].Ok? => rs[k].value)))
  {
    if |rs| > 0 {
      var init := rs[..|rs| - 1];
      JoinAllOk(init);
      var all := seq(|rs|, k requires 0 <= k < |rs| && rs[k].Ok? => rs[k].value);
      assert all[..|rs| - 1] == seq(|init|, k requires 0 <= k < |init| && init[k].Ok? => init[k].value);
    }
  }

  /** Helper for JoinAllFirstErr: a prefix without exceptions leaves an `Ok`. */
  lemma {:induction false} JoinAllOkPrefix<T, E>(rs: seq<Result<seq<T>, E>>)
    requires forall k :: 0 <= k < |rs| ==> rs[k].Ok?
    ensures JoinAll(rs).Ok?
  {
    if |rs| > 0 {
      JoinAllOkPrefix(rs[..|rs| - 1]);
    }
  }

  /** Extending over two runs of steps, one after the other. */
  lemma {:induction false} JoinAllAppend<T, E>(a: seq<Result<seq<T>, E>>, b: seq<Result<seq<T>, E>>)
    ensures JoinAll(a + b) ==
      match JoinAll(a)
      case Err(e) => Err(e)
      case Ok(xs) =>
        match JoinAll(b)
        case Err(e) => Err(e)
        case Ok(ys) => Ok(xs + ys)
  {
    if |b| == 0 {
      assert a + b == a;
      if JoinAll(a).Ok? {
        assert JoinAll(a).value + [] == JoinAll(a).value;
      }
    } else {
      var binit := b[..|b| - 1];
      assert (a + b)[..|a + b| - 1] == a + binit;
      assert (a + b)[|a + b| - 1] == b[|b| - 1];
      JoinAllAppend(a, binit);
      if JoinAll(a).Ok? && JoinAll(binit).Ok? && b[|b| - 1].Ok? {
        var xs, ys, zs := JoinAll(a).value, JoinAll(binit).value, b[|b| - 1].value;
        assert xs + ys + zs == xs + (ys + zs);
      }
    }
  }
}
