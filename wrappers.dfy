/** Optional values and error outcomes shared by every module of the model. */
module Wrappers {

  datatype Option<T> = None | Some(value: T)

  /**
   * How an operation of the original program can fail: one of its two
   * exception types, a thrown std::string, a call to exit(), or undefined
   * behaviour (an empty shared_ptr or optional dereferenced, a JSON value read
   * as the wrong type), which the model turns into an error outcome.
   */
  datatype Failure =
    | PhenopacketException(msg: string)
    | JsonParseException(msg: string)
    | StringThrown(msg: string)
    | Exit(code: int)
    | UndefinedBehaviour(what: string)
    | ValueError(msg: string)
    | IndexError(msg: string)
    | NameError(name: string)
    | FileNotFound(path: string)

  datatype Result<T> = Ok(value: T) | Err(error: Failure)

  /** f applied to each element, in order. */
  function Mapped<T, U>(xs: seq<T>, f: T -> U): (r: seq<U>)
    ensures |r| == |xs|
  {
    if |xs| == 0 then [] else Mapped(xs[..|xs| - 1], f) + [f(xs[|xs| - 1])]
  }

  /** Element k of the mapped sequence is f of element k. */
  lemma {:induction false} MappedMeaning<T, U>(xs: seq<T>, f: T -> U)
    ensures forall k :: 0 <= k < |xs| ==> Mapped(xs, f)[k] == f(xs[k])
  {
    if |xs| > 0 {
      var n := |xs| - 1;
      MappedMeaning(xs[..n], f);
      assert forall k :: 0 <= k < n ==> xs[..n][k] == xs[k];
    }
  }

  /** Mapping one more element adds its image at the end. */
  lemma MappedSnoc<T, U>(xs: seq<T>, x: T, f: T -> U)
    ensures Mapped(xs + [x], f) == Mapped(xs, f) + [f(x)]
  {
    assert (xs + [x])[..|xs|] == xs;
  }

  /** The image of a non-empty sequence starts with the image of its first element. */
  lemma MappedFirst<T, U>(xs: seq<T>, f: T -> U)
    requires |xs| > 0
    ensures Mapped(xs, f) == [f(xs[0])] + Mapped(xs[1..], f)
  {
    MappedAppend([xs[0]], xs[1..], f);
    assert [xs[0]] + xs[1..] == xs;
    assert Mapped([xs[0]], f) == [f(xs[0])] by {
      assert [xs[0]][..0] == [];
    }
  }

  /** Mapping a concatenation maps each part. */
  lemma {:induction false} MappedAppend<T, U>(a: seq<T>, b: seq<T>, f: T -> U)
    ensures Mapped(a + b, f) == Mapped(a, f) + Mapped(b, f)
  {
    if |b| == 0 {
      assert a + b == a;
    } else {
      var n := |b| - 1;
      MappedAppend(a, b[..n], f);
      assert (a + b)[..|a + b| - 1] == a + b[..n];
    }
  }

  /** Each element parsed in order; the first element that fails decides the failure. */
  function Parsed<T, U>(xs: seq<T>, parse: T -> Result<U>): Result<seq<U>> {
    if |xs| == 0 then Ok([])
    else
      match Parsed(xs[..|xs| - 1], parse)
      case Err(e) => Err(e)
      case Ok(done) =>
        match parse(xs[|xs| - 1])
        case Err(e) => Err(e)
        case Ok(u) => Ok(done + [u])
  }

  /** Parsing what f printed gives back the printed values when parse undoes f on each of them. */
  lemma {:induction false} ParsedMappedInverse<T, U>(xs: seq<T>, f: T -> U, parse: U -> Result<T>)
    requires forall x :: x in xs ==> parse(f(x)) == Ok(x)
    ensures Parsed(Mapped(xs, f), parse) == Ok(xs)
  {
    if |xs| > 0 {
      var n := |xs| - 1;
      var init, last := xs[..n], xs[n];
      assert xs == init + [last];
      ParsedMappedInverse(init, f, parse);
      var ys := Mapped(xs, f);
      assert ys[..n] == Mapped(init, f);
      assert parse(ys[n]) == Ok(last);
    }
  }

  /**
   * The parse comes out, one value per element and in order, exactly when
   * every element parses.
   */
  lemma {:induction false} ParsedMeaning<T, U>(xs: seq<T>, parse: T -> Result<U>)
    ensures Parsed(xs, parse).Ok? <==> forall k :: 0 <= k < |xs| ==> parse(xs[k]).Ok?
    ensures Parsed(xs, parse).Ok? ==> |Parsed(xs, parse).value| == |xs|
    ensures Parsed(xs, parse).Ok? ==> forall k :: 0 <= k < |xs| ==> Parsed(xs, parse).value[k] == parse(xs[k]).value
  {
    if |xs| > 0 {
      var n := |xs| - 1;
      ParsedMeaning(xs[..n], parse);
      assert forall k :: 0 <= k < n ==> xs[..n][k] == xs[k];
    }
  }

  /** Element k is the first that does not parse, and it fails with e. */
  predicate FirstFailure<T, U>(xs: seq<T>, parse: T -> Result<U>, k: int, e: Failure) {
    0 <= k < |xs| && parse(xs[k]) == Err(e) && forall j :: 0 <= j < k ==> parse(xs[j]).Ok?
  }

  /** When the parse fails, the failure is that of the first element that fails. */
  lemma {:induction false} ParsedFailure<T, U>(xs: seq<T>, parse: T -> Result<U>)
    ensures Parsed(xs, parse).Err? ==> exists k :: FirstFailure(xs, parse, k, Parsed(xs, parse).error)
  {
    if |xs| > 0 && Parsed(xs, parse).Err? {
      var n := |xs| - 1;
      var e := Parsed(xs, parse).error;
      assert forall k :: 0 <= k < n ==> xs[..n][k] == xs[k];
      if Parsed(xs[..n], parse).Err? {
        ParsedFailure(xs[..n], parse);
        var k :| FirstFailure(xs[..n], parse, k, e);
        assert FirstFailure(xs, parse, k, e);
      } else {
        ParsedMeaning(xs[..n], parse);
        assert FirstFailure(xs, parse, n, e);
      }
    }
  }

  /** Once the elements up to i fail, all of them fail the same way. */
  lemma {:induction false} ParsedFailurePersists<T, U>(xs: seq<T>, parse: T -> Result<U>, i: nat)
    requires i <= |xs| && Parsed(xs[..i], parse).Err?
    ensures Parsed(xs, parse) == Parsed(xs[..i], parse)
    decreases |xs| - i
  {
    if i < |xs| {
      assert xs[..i + 1][..i] == xs[..i];
      ParsedFailurePersists(xs, parse, i + 1);
    } else {
      assert xs[..i] == xs;
    }
  }

  /** One more element: its value is added when it parses, and otherwise its failure is that of the whole parse. */
  lemma ParsedStep<T, U>(xs: seq<T>, k: nat, parse: T -> Result<U>)
    requires k < |xs| && Parsed(xs[..k], parse).Ok?
    ensures parse(xs[k]).Ok? ==> Parsed(xs[..k + 1], parse) == Ok(Parsed(xs[..k], parse).value + [parse(xs[k]).value])
    ensures parse(xs[k]).Err? ==> Parsed(xs, parse) == Err(parse(xs[k]).error)
  {
    assert xs[..k + 1][..k] == xs[..k];
    if parse(xs[k]).Err? {
      ParsedFailurePersists(xs, parse, k + 1);
    }
  }

  /** A failing element after elements that parse: its failure is the parse's. */
  lemma ParsedSnocFailure<T, U>(xs: seq<T>, x: T, parse: T -> Result<U>)
    requires Parsed(xs, parse).Ok? && parse(x).Err?
    ensures Parsed(xs + [x], parse) == Err(parse(x).error)
  {
    assert (xs + [x])[..|xs|] == xs;
  }

  /** A parse that has failed stays failed, whatever follows. */
  lemma ParsedAppendFailure<T, U>(xs: seq<T>, ys: seq<T>, parse: T -> Result<U>)
    requires Parsed(xs, parse).Err?
    ensures Parsed(xs + ys, parse) == Parsed(xs, parse)
  {
    assert (xs + ys)[..|xs|] == xs;
    ParsedFailurePersists(xs + ys, parse, |xs|);
  }
}
