/** Option, Result and Outcome: the failure-compatible values that stand in for
    Java's null references and for the exceptions the verifier throws. */
module Wrappers {

  /** A Java reference that may be null: None is null. */
  datatype Option<+T> = None | Some(value: T)

  datatype Result<+T, +E> = Success(value: T) | Failure(error: E) {
    predicate IsFailure() { Failure? }

    function PropagateFailure<U>(): Result<U, E>
      requires Failure?
    {
      Failure(error)
    }

    function Extract(): T
      requires Success?
    {
      value
    }
  }

  /** The outcome of a void `assert...` method: it returns normally or throws. */
  datatype Outcome<+E> = Pass | Fail(error: E)
}

/** The ways a verification can fail. */
module Failures {

  datatype Failure =
      /** A ClassCastException, NullPointerException, IndexOutOfBoundsException or
          parse error while mapping the decoded CBOR tree: the input is malformed. */
    | Malformed
      /** `getDocument` with an index outside the document list. */
    | IndexOutOfRange
      /** The QR payload's validTo is not strictly after its validFrom. */
    | InvalidValidityWindow
      /** A QR payload instant that is neither a Java Integer nor a Long. */
    | NotAnEpochSecond
      /** A negative allowed clock skew. */
    | NegativeClockSkew
      /** "QR code has expired at validTo". */
    | Expired(validTo: int)
      /** "QR code is not valid until validFrom". */
    | NotYetValid(validFrom: int)
      /** "QR code lifetime is longer than maxSeconds seconds". */
    | LifetimeTooLong(maxSeconds: int)
      /** "Device signature invalid". */
    | DeviceSignatureInvalid
      /** "Issuer signature is invalid". */
    | IssuerSignatureInvalid
}

/** A loop that converts each element in turn and lets the first exception
    abort it. */
module Sequences {
  import opened Wrappers

  /** Every element of s converted by f, in order; the first failure, if any. */
  function MapAll<A, B, E>(f: A -> Result<B, E>, s: seq<A>): Result<seq<B>, E> {
    if s == [] then Success([])
    else
      var init :- MapAll(f, s[..|s| - 1]);
      var last :- f(s[|s| - 1]);
      Success(init + [last])
  }

  /** The conversion succeeds exactly when every element converts, and then
      it keeps the length and the order of its input. */
  lemma {:induction false} MapAllShape<A, B, E>(f: A -> Result<B, E>, s: seq<A>)
    ensures MapAll(f, s).Success? <==> forall i | 0 <= i < |s| :: f(s[i]).Success?
    ensures MapAll(f, s).Success? ==>
      |MapAll(f, s).value| == |s| && forall i | 0 <= i < |s| :: MapAll(f, s).value[i] == f(s[i]).value
    ensures MapAll(f, s).Failure? ==>
      exists k | 0 <= k < |s| ::
        && f(s[k]) == Failure(MapAll(f, s).error)
        && forall j | 0 <= j < k :: f(s[j]).Success?
  {
    if s != [] {
      var init := s[..|s| - 1];
      MapAllShape(f, init);
      assert forall i | 0 <= i < |init| :: init[i] == s[i];
    }
  }

  /** One more element: the step a loop takes. */
  lemma MapAllStep<A, B, E>(f: A -> Result<B, E>, s: seq<A>, i: nat)
    requires i < |s|
    requires MapAll(f, s[..i]).Success?
    ensures MapAll(f, s[..i + 1]) ==
      match f(s[i])
      case Failure(e) => Failure(e)
      case Success(b) => Success(MapAll(f, s[..i]).value + [b])
  {
    assert s[..i + 1][..i] == s[..i];
  }

  /** p holds of every element of s; stated on the prefix so that a loop can
      extend it one element at a time. */
  predicate AllOf<A>(p: A -> bool, s: seq<A>) {
    s == [] || (AllOf(p, s[..|s| - 1]) && p(s[|s| - 1]))
  }

  lemma AllOfStep<A>(p: A -> bool, s: seq<A>, i: nat)
    requires i < |s|
    ensures AllOf(p, s[..i + 1]) <==> AllOf(p, s[..i]) && p(s[i])
  {
    assert s[..i + 1][..i] == s[..i];
  }

  lemma {:induction false} AllOfPrefix<A>(p: A -> bool, s: seq<A>, j: nat)
    requires j <= |s|
    ensures AllOf(p, s) ==> AllOf(p, s[..j])
  {
    if j < |s| {
      assert s[..|s| - 1][..j] == s[..j];
      AllOfPrefix(p, s[..|s| - 1], j);
    } else {
      assert s[..j] == s;
    }
  }

  /** AllOf is the plain "for every element". */
  lemma {:induction false} AllOfEach<A>(p: A -> bool, s: seq<A>)
    ensures AllOf(p, s) <==> forall i | 0 <= i < |s| :: p(s[i])
  {
    if s != [] {
      var init := s[..|s| - 1];
      AllOfEach(p, init);
      assert forall i | 0 <= i < |init| :: init[i] == s[i];
    }
  }

  /** p relates every element of s to the element of t at the same index;
      stated on the prefix so that a loop can extend both sequences. */
  predicate AllPairs<A, B>(p: (A, B) -> bool, s: seq<A>, t: seq<B>) {
    && |s| == |t|
    && (s != [] ==> AllPairs(p, s[..|s| - 1], t[..|t| - 1]) && p(s[|s| - 1], t[|t| - 1]))
  }

  lemma AllPairsStep<A, B>(p: (A, B) -> bool, s: seq<A>, t: seq<B>, b: B)
    requires |t| < |s|
    requires AllPairs(p, s[..|t|], t)
    requires p(s[|t|], b)
    ensures AllPairs(p, s[..|t| + 1], t + [b])
  {
    assert s[..|t| + 1][..|t|] == s[..|t|];
    assert (t + [b])[..|t|] == t;
  }

  lemma {:induction false} AllPairsEach<A, B>(p: (A, B) -> bool, s: seq<A>, t: seq<B>, k: nat)
    requires AllPairs(p, s, t)
    requires k < |s|
    ensures |t| == |s| && p(s[k], t[k])
  {
    if k < |s| - 1 {
      AllPairsEach(p, s[..|s| - 1], t[..|t| - 1], k);
    }
  }
}
