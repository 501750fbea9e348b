/** The grammar of item identifiers: the regular expression and the length
    bound of `executeIdentifierTemplate`, against a direct description. */
module Identifier {

  /** The constructs the identifier expression is written with. */
  datatype Regex =
    | Class(chars: set<char>)
    | Concat(first: Regex, second: Regex)
    | Star(body: Regex)
    | Optional(body: Regex)

  const ALPHANUMERIC: set<char> :=
    (set c: char | 'a' <= c <= 'z') + (set c: char | '0' <= c <= '9')

  const INNER: set<char> := ALPHANUMERIC + {'.', '-'}

  const MAX_IDENTIFIER_LENGTH := 253

  /** `^[a-z0-9]([a-z0-9.-]*[a-z0-9])?$`; both anchors hold because `Matches` is about whole strings. */
  const IDENTIFIER_REGEX: Regex :=
    Concat(Class(ALPHANUMERIC), Optional(Concat(Star(Class(INNER)), Class(ALPHANUMERIC))))

  /** The language of a regular expression. */
  predicate Matches(r: Regex, s: string)
    decreases |s|, r
  {
    match r
    case Class(chars) => |s| == 1 && s[0] in chars
    case Concat(first, second) =>
      exists k | 0 <= k <= |s| :: Matches(first, s[..k]) && Matches(second, s[k..])
    case Star(body) =>
      s == "" || exists k | 0 < k <= |s| :: Matches(body, s[..k]) && Matches(r, s[k..])
    case Optional(body) => s == "" || Matches(body, s)
  }

  /** The test `executeIdentifierTemplate` applies to a rendered identifier. */
  predicate Accepted(s: string) {
    Matches(IDENTIFIER_REGEX, s) && |s| <= MAX_IDENTIFIER_LENGTH
  }

  predicate Alphanumeric(c: char) {
    'a' <= c <= 'z' || '0' <= c <= '9'
  }

  /** The documented rule, in terms of the characters alone. */
  predicate WellFormed(s: string) {
    && 1 <= |s| <= 253
    && (forall i | 0 <= i < |s| :: Alphanumeric(s[i]) || s[i] == '-' || s[i] == '.')
    && Alphanumeric(s[0])
    && Alphanumeric(s[|s| - 1])
  }

  lemma {:induction false} StarOfClass(chars: set<char>, s: string)
    ensures Matches(Star(Class(chars)), s) <==> forall i | 0 <= i < |s| :: s[i] in chars
    decreases |s|
  {
    if s == "" {
    } else {
      StarOfClass(chars, s[1..]);
      if forall i | 0 <= i < |s| :: s[i] in chars {
        assert Matches(Class(chars), s[..1]) && Matches(Star(Class(chars)), s[1..]);
      }
      if Matches(Star(Class(chars)), s) {
        var k :| 0 < k <= |s| && Matches(Class(chars), s[..k]) && Matches(Star(Class(chars)), s[k..]);
        assert k == 1;
        forall i | 0 <= i < |s| ensures s[i] in chars {
          assert i > 0 ==> s[i] == s[1..][i - 1];
        }
      }
    }
  }

  lemma ConcatSplit(first: Regex, second: Regex, s: string) returns (k: nat)
    requires Matches(Concat(first, second), s)
    ensures k <= |s| && Matches(first, s[..k]) && Matches(second, s[k..])
  {
    k :| 0 <= k <= |s| && Matches(first, s[..k]) && Matches(second, s[k..]);
  }

  lemma ConcatJoin(first: Regex, second: Regex, s: string, k: nat)
    requires k <= |s| && Matches(first, s[..k]) && Matches(second, s[k..])
    ensures Matches(Concat(first, second), s)
  {
  }

  /** All characters among `inner` and the last one among `last`. */
  predicate EndsIn(inner: set<char>, last: set<char>, s: string) {
    |s| > 0 && s[|s| - 1] in last && forall i | 0 <= i < |s| - 1 :: s[i] in inner
  }

  /** The optional tail `([a-z0-9.-]*[a-z0-9])`. */
  lemma TailGrammar(inner: set<char>, last: set<char>, s: string)
    ensures Matches(Concat(Star(Class(inner)), Class(last)), s) <==> EndsIn(inner, last, s)
  {
    if Matches(Concat(Star(Class(inner)), Class(last)), s) {
      var k := ConcatSplit(Star(Class(inner)), Class(last), s);
      assert k == |s| - 1 && s[k..][0] == s[k];
      StarOfClass(inner, s[..k]);
      forall i | 0 <= i < k ensures s[i] in inner {
        assert s[i] == s[..k][i];
      }
    }
    if EndsIn(inner, last, s) {
      var k := |s| - 1;
      StarOfClass(inner, s[..k]);
      assert Matches(Class(last), s[k..]);
      ConcatJoin(Star(Class(inner)), Class(last), s, k);
    }
  }

  /** A first character, then possibly a tail. */
  lemma HeadGrammar(head: set<char>, tail: Regex, s: string)
    ensures Matches(Concat(Class(head), Optional(tail)), s)
       <==> |s| > 0 && s[0] in head && (|s| == 1 || Matches(tail, s[1..]))
  {
    if Matches(Concat(Class(head), Optional(tail)), s) {
      var k := ConcatSplit(Class(head), Optional(tail), s);
      assert k == 1 && s[..k][0] == s[0];
      assert |s| > 1 ==> s[1..] != "";
    }
    if |s| > 0 && s[0] in head && (|s| == 1 || Matches(tail, s[1..])) {
      assert Matches(Class(head), s[..1]);
      assert |s| == 1 ==> s[1..] == "";
      ConcatJoin(Class(head), Optional(tail), s, 1);
    }
  }

  /** The expression and the documented rule accept the same strings. */
  lemma AcceptedIffWellFormed(s: string)
    ensures Accepted(s) <==> WellFormed(s)
  {
    HeadGrammar(ALPHANUMERIC, Concat(Star(Class(INNER)), Class(ALPHANUMERIC)), s);
    if |s| > 1 && s[0] in ALPHANUMERIC {
      TailGrammar(INNER, ALPHANUMERIC, s[1..]);
      CharactersOfTail(s);
    }
  }

  lemma CharactersOfTail(s: string)
    requires |s| > 1 && s[0] in ALPHANUMERIC
    ensures EndsIn(INNER, ALPHANUMERIC, s[1..])
       <==> s[|s| - 1] in ALPHANUMERIC && forall i | 0 <= i < |s| :: s[i] in INNER
  {
    assert s[1..][|s| - 2] == s[|s| - 1];
    assert forall i | 0 <= i < |s| - 1 :: s[1..][i] == s[i + 1];
    if EndsIn(INNER, ALPHANUMERIC, s[1..]) {
      forall i | 0 <= i < |s| ensures s[i] in INNER {
        assert 0 < i < |s| - 1 ==> s[i] == s[1..][i - 1];
      }
    }
  }

  /** Relationship mappings build identifiers by joining others with "-". */
  lemma AcceptedJoin(a: string, b: string)
    requires Accepted(a) && Accepted(b) && |a| + 1 + |b| <= MAX_IDENTIFIER_LENGTH
    ensures Accepted(a + "-" + b)
  {
    AcceptedIffWellFormed(a);
    AcceptedIffWellFormed(b);
    var joined := a + "-" + b;
    assert joined[|joined| - 1] == b[|b| - 1];
    AcceptedIffWellFormed(joined);
  }
}
