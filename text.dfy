/** The two pieces of Python's text handling the CLF reader leans on: `str.split()`
    with no separator (whitespace tokenisation), and the built-in number conversions
    `float()` and `int()`.

    The conversions are not modelled: which strings Python accepts as numbers, and the
    IEEE double they denote, are outside this model. They are a parameter of type
    `Conversions` instead, threaded through every parser that converts text. The one
    fact the model relies on is that the empty string is not a float. */
module Text {
  import opened Errors

  /** Python's `str.isspace()`: the characters `str.split()` separates on. */
  predicate IsSpace(c: char) {
    || c == ' ' || c == '\t' || c == '\n' || c == '\r' || c == '\U{B}' || c == '\U{C}'
    || ('\U{1C}' <= c <= '\U{1F}') || c == '\U{85}' || c == '\U{A0}' || c == '\U{1680}'
    || ('\U{2000}' <= c <= '\U{200A}') || c == '\U{2028}' || c == '\U{2029}'
    || c == '\U{202F}' || c == '\U{205F}' || c == '\U{3000}'
  }

  /** A token as `str.split()` produces it: non-empty, without whitespace. */
  predicate IsToken(t: string) {
    t != [] && forall i :: 0 <= i < |t| ==> !IsSpace(t[i])
  }

  /** `s.split()`: the maximal runs of non-whitespace characters of `s`, in order. */
  function Split(s: string): (tokens: seq<string>)
    ensures forall i :: 0 <= i < |tokens| ==> IsToken(tokens[i])
  {
    SplitAfter(s, "")
  }

  /** Splits `s` when `pending` non-whitespace characters have already been read. */
  function SplitAfter(s: string, pending: string): (tokens: seq<string>)
    requires forall i :: 0 <= i < |pending| ==> !IsSpace(pending[i])
    ensures forall i :: 0 <= i < |tokens| ==> IsToken(tokens[i])
    decreases |s|
  {
    if s == [] then
      if pending == [] then [] else [pending]
    else if IsSpace(s[0]) then
      (if pending == [] then [] else [pending]) + SplitAfter(s[1..], "")
    else
      SplitAfter(s[1..], pending + [s[0]])
  }

  /** `" ".join(tokens)`. */
  function JoinWithSpace(tokens: seq<string>): string {
    if |tokens| == 0 then ""
    else if |tokens| == 1 then tokens[0]
    else tokens[0] + " " + JoinWithSpace(tokens[1..])
  }

  lemma {:induction false} SplitAfterToken(t: string, s: string, pending: string)
    requires forall i :: 0 <= i < |pending| ==> !IsSpace(pending[i])
    requires forall i :: 0 <= i < |t| ==> !IsSpace(t[i])
    ensures SplitAfter(t + s, pending) == SplitAfter(s, pending + t)
    decreases |t|
  {
    if t != [] {
      assert (t + s)[1..] == t[1..] + s;
      assert pending + t == (pending + [t[0]]) + t[1..];
      SplitAfterToken(t[1..], s, pending + [t[0]]);
    } else {
      assert t + s == s;
      assert pending + t == pending;
    }
  }

  /** Splitting a space-joined list of tokens gives the tokens back. */
  lemma {:induction false} SplitJoinRoundTrip(tokens: seq<string>)
    requires forall i :: 0 <= i < |tokens| ==> IsToken(tokens[i])
    ensures Split(JoinWithSpace(tokens)) == tokens
    decreases |tokens|
  {
    if |tokens| == 1 {
      var t := tokens[0];
      assert t + "" == t && "" + t == t;
      SplitAfterToken(t, "", "");
      assert SplitAfter("", t) == [t];
    } else if |tokens| > 1 {
      var t, rest := tokens[0], JoinWithSpace(tokens[1..]);
      assert JoinWithSpace(tokens) == t + (" " + rest);
      SplitAfterToken(t, " " + rest, "");
      assert "" + t == t;
      assert (" " + rest)[1..] == rest;
      SplitJoinRoundTrip(tokens[1..]);
      assert tokens == [t] + tokens[1..];
    }
  }

  /** A whitespace character ends the token before it and starts no token. */
  lemma {:induction false} SplitAfterSpace(a: string, c: char, b: string, pending: string)
    requires forall i :: 0 <= i < |pending| ==> !IsSpace(pending[i])
    requires IsSpace(c)
    ensures SplitAfter(a + [c] + b, pending) == SplitAfter(a, pending) + SplitAfter(b, "")
    decreases |a|
  {
    if a == [] {
      assert a + [c] + b == [c] + b;
      assert ([c] + b)[1..] == b;
    } else {
      assert (a + [c] + b)[1..] == a[1..] + [c] + b;
      assert (a + [c] + b)[0] == a[0];
      if IsSpace(a[0]) {
        SplitAfterSpace(a[1..], c, b, "");
      } else {
        SplitAfterSpace(a[1..], c, b, pending + [a[0]]);
      }
    }
  }

  /** `str.split()` cuts at every whitespace character, and a token is its own split;
      together these fix the split of every string. */
  lemma SplitCharacterised(a: string, c: char, b: string, t: string)
    ensures IsSpace(c) ==> Split(a + [c] + b) == Split(a) + Split(b)
    ensures IsToken(t) ==> Split(t) == [t]
    ensures Split("") == []
  {
    if IsSpace(c) {
      SplitAfterSpace(a, c, b, "");
    }
    if IsToken(t) {
      assert t + "" == t && "" + t == t;
      SplitAfterToken(t, "", "");
    }
  }

  datatype NumberSyntax = NumberSyntax(
    /** Python `float(s)`: the value, or None where it raises ValueError. */
    toFloat: string -> Option<real>,
    /** Python `int(s)`: the value, or None where it raises ValueError. */
    toInt: string -> Option<int>)

  /** Python's conversions, of which the model only knows that `float("")` raises. */
  type Conversions = c: NumberSyntax | c.toFloat("") == None
    witness NumberSyntax(_ => None, _ => None)

  /** `list(map(float, tokens))`: every token converted in order, or the first failure. */
  function FloatsOf(tokens: seq<string>, conv: Conversions): (r: Result<seq<real>>)
    ensures r.Success? <==> forall i :: 0 <= i < |tokens| ==> conv.toFloat(tokens[i]).Some?
    ensures r.Success? ==>
              && |r.value| == |tokens|
              && forall i :: 0 <= i < |tokens| ==> conv.toFloat(tokens[i]) == Some(r.value[i])
    ensures r.Failure? ==> r.error == ConversionError
  {
    if tokens == [] then Success([])
    else
      match conv.toFloat(tokens[0])
      case None => Failure(ConversionError)
      case Some(x) =>
        var rest :- FloatsOf(tokens[1..], conv);
        Success([x] + rest)
  }

  /** `tuple(map(int, tokens))`: every token converted in order, or the first failure. */
  function IntsOf(tokens: seq<string>, conv: Conversions): (r: Result<seq<int>>)
    ensures r.Success? <==> forall i :: 0 <= i < |tokens| ==> conv.toInt(tokens[i]).Some?
    ensures r.Success? ==>
              && |r.value| == |tokens|
              && forall i :: 0 <= i < |tokens| ==> conv.toInt(tokens[i]) == Some(r.value[i])
    ensures r.Failure? ==> r.error == ConversionError
  {
    if tokens == [] then Success([])
    else
      match conv.toInt(tokens[0])
      case None => Failure(ConversionError)
      case Some(n) =>
        var rest :- IntsOf(tokens[1..], conv);
        Success([n] + rest)
  }
}
