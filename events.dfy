/**
 * v1/events/events.go: a registry of observers and the three dispatch methods.
 * An observer is known by which of the three observer interfaces it implements;
 * what it returns when called is supplied to a dispatch as an `outcome` function.
 */
module Events {
  import opened Wrappers
  import opened GoHttp
  import opened ApiErrors

  /** An observer value and the observer interfaces it implements. */
  datatype Observer = Observer(id: nat, preflight: bool, postflight: bool, failure: bool)

  /** The three observer interfaces. */
  datatype Kind = Preflight | Postflight | OnFailure

  predicate Implements(o: Observer, k: Kind) {
    match k
    case Preflight => o.preflight
    case Postflight => o.postflight
    case OnFailure => o.failure
  }

  /** The observers of `s` implementing `k`, in order. */
  function Filter(s: seq<Observer>, k: Kind): (r: seq<Observer>)
    ensures |r| <= |s|
    ensures forall i :: 0 <= i < |r| ==> Implements(r[i], k) && r[i] in s
  {
    if s == [] then []
    else Filter(s[..|s| - 1], k) + (if Implements(s[|s| - 1], k) then [s[|s| - 1]] else [])
  }

  /** Every observer of `s` implementing `k` is in the filtered list. */
  lemma {:induction false} FilterComplete(s: seq<Observer>, k: Kind, o: Observer)
    requires o in s && Implements(o, k)
    ensures o in Filter(s, k)
  {
    if o != s[|s| - 1] {
      assert o in s[..|s| - 1];
      FilterComplete(s[..|s| - 1], k, o);
    }
  }

  lemma FilterAppend(s: seq<Observer>, o: Observer, k: Kind)
    ensures Filter(s + [o], k) == Filter(s, k) + (if Implements(o, k) then [o] else [])
  {
    assert (s + [o])[..|s|] == s;
  }

  class Observers {
    var observers: seq<Observer>
    var preflight: seq<Observer>
    var postflight: seq<Observer>
    var failure: seq<Observer>

    /** Each typed list holds, in order of addition, the observers implementing that interface. */
    ghost predicate Valid()
      reads this
    {
      preflight == Filter(observers, Preflight)
      && postflight == Filter(observers, Postflight)
      && failure == Filter(observers, OnFailure)
    }

    /** A zero `Observers` value: every list is empty. */
    constructor ()
      ensures Valid() && observers == [] && preflight == [] && postflight == [] && failure == []
    {
      observers, preflight, postflight, failure := [], [], [], [];
    }

    /**
     * `Add`: always appends to `observers`, and to each typed list whose interface the
     * observer implements (so one observer can land in several lists).
     */
    method Add(o: Observer)
      requires Valid()
      modifies this
      ensures Valid()
      ensures observers == old(observers) + [o]
      ensures preflight == old(preflight) + (if o.preflight then [o] else [])
      ensures postflight == old(postflight) + (if o.postflight then [o] else [])
      ensures failure == old(failure) + (if o.failure then [o] else [])
    {
      observers := observers + [o];
      if o.preflight {
        preflight := preflight + [o];
      }
      if o.postflight {
        postflight := postflight + [o];
      }
      if o.failure {
        failure := failure + [o];
      }
      FilterAppend(old(observers), o, Preflight);
      FilterAppend(old(observers), o, Postflight);
      FilterAppend(old(observers), o, OnFailure);
    }
  }

  /**
   * The error a dispatch over `list` returns: the first error any observer returns,
   * or none when every observer succeeds.
   */
  function FirstError(list: seq<Observer>, outcome: Observer -> Option<Err>): Option<Err> {
    if list == [] then None
    else if outcome(list[0]).Some? then outcome(list[0])
    else FirstError(list[1..], outcome)
  }

  /**
   * `FirstError` is none exactly when every observer succeeds; otherwise it is the error
   * of some observer, and every observer before that one succeeded.
   */
  lemma {:induction false} FirstErrorSpec(list: seq<Observer>, outcome: Observer -> Option<Err>)
    ensures var r := FirstError(list, outcome);
            && (r.None? <==> forall i :: 0 <= i < |list| ==> outcome(list[i]).None?)
            && (r.Some? ==> exists i :: 0 <= i < |list| && outcome(list[i]) == r
                                       && forall j :: 0 <= j < i ==> outcome(list[j]).None?)
  {
    if list != [] && outcome(list[0]).None? {
      var tail := list[1..];
      FirstErrorSpec(tail, outcome);
      var r := FirstError(tail, outcome);
      if r.Some? {
        var i :| 0 <= i < |tail| && outcome(tail[i]) == r
                 && forall j :: 0 <= j < i ==> outcome(tail[j]).None?;
        assert outcome(list[i + 1]) == r;
        forall j | 0 <= j < i + 1 ensures outcome(list[j]).None? {
          if j > 0 {
            assert list[j] == tail[j - 1];
          }
        }
      } else {
        forall j | 0 <= j < |list| ensures outcome(list[j]).None? {
          if j > 0 {
            assert list[j] == tail[j - 1];
          }
        }
      }
    }
  }

  /** One step of `FirstError` from position `i`. */
  lemma FirstErrorFrom(list: seq<Observer>, outcome: Observer -> Option<Err>, i: nat)
    requires i < |list|
    ensures FirstError(list[i..], outcome)
            == if outcome(list[i]).Some? then outcome(list[i]) else FirstError(list[i + 1..], outcome)
  {
    assert list[i..][0] == list[i];
    assert list[i..][1..] == list[i + 1..];
  }

  /**
   * Calls the observers of `list` in order and stops at the first error, which it
   * returns; `called` is the observers actually called.
   */
  method Dispatch(list: seq<Observer>, outcome: Observer -> Option<Err>) returns (err: Option<Err>, ghost called: seq<Observer>)
    ensures err == FirstError(list, outcome)
    ensures called <= list
    ensures err.None? ==> called == list
    ensures err.Some? ==> |called| >= 1 && outcome(called[|called| - 1]) == err
    ensures forall i :: 0 <= i < |called| - 1 ==> outcome(called[i]).None?
  {
    var i := 0;
    called := [];
    while i < |list|
      invariant 0 <= i <= |list|
      invariant called == list[..i]
      invariant forall j :: 0 <= j < i ==> outcome(list[j]).None?
      invariant FirstError(list, outcome) == FirstError(list[i..], outcome)
    {
      FirstErrorFrom(list, outcome, i);
      assert list[..i + 1] == list[..i] + [list[i]];
      called := called + [list[i]];
      var e := outcome(list[i]);
      if e.Some? {
        return e, called;
      }
      i := i + 1;
    }
    return None, called;
  }

  /** `WillSendRequest`: nothing for a nil registry, else a dispatch over the preflight observers. */
  method WillSendRequest(o: Observers?, req: Request, outcome: Observer -> Option<Err>) returns (err: Option<Err>)
    ensures o == null ==> err.None?
    ensures o != null ==> err == FirstError(o.preflight, outcome)
  {
    if o == null {
      return None;
    }
    ghost var called;
    err, called := Dispatch(o.preflight, outcome);
  }

  /** `DidReceiveResponse`: nothing for a nil registry, else a dispatch over the postflight observers. */
  method DidReceiveResponse(o: Observers?, req: Request, rsp: Option<Response>, outcome: Observer -> Option<Err>)
    returns (err: Option<Err>)
    ensures o == null ==> err.None?
    ensures o != null ==> err == FirstError(o.postflight, outcome)
  {
    if o == null {
      return None;
    }
    ghost var called;
    err, called := Dispatch(o.postflight, outcome);
  }

  /**
   * `RequestFailedWithError`: nothing for a nil registry, else a dispatch over the
   * failure observers, each of which is handed the original error `failed`.
   */
  method RequestFailedWithError(o: Observers?, req: Request, rsp: Option<Response>, failed: Err,
                                handle: (Observer, Err) -> Option<Err>)
    returns (err: Option<Err>)
    ensures o == null ==> err.None?
    ensures o != null ==> err == FirstError(o.failure, ob => handle(ob, failed))
  {
    if o == null {
      return None;
    }
    ghost var called;
    err, called := Dispatch(o.failure, ob => handle(ob, failed));
  }
}
