/** Readers for fixed text and for double-quoted attribute values. */
module Scan {
  import opened Wrappers

  /** Consumes the literal `lit` at the front of `s`. */
  function Expect(lit: string, s: string): (r: Option<string>)
    ensures r.Some? <==> lit <= s
    ensures r.Some? ==> s == lit + r.value
  {
    if lit <= s then Some(s[|lit|..]) else None
  }

  lemma ExpectRoundTrip(lit: string, t: string)
    ensures Expect(lit, lit + t) == Some(t)
  {
    assert (lit + t)[|lit|..] == t;
  }

  predicate QuoteFree(s: string) {
    forall i :: 0 <= i < |s| ==> s[i] != '"'
  }

  /** The position of the first `"` in `s`, if there is one. */
  function QuoteIndex(s: string): (r: Option<nat>)
    ensures r.None? <==> QuoteFree(s)
    ensures r.Some? ==> r.value < |s| && s[r.value] == '"' && QuoteFree(s[..r.value])
  {
    if |s| == 0 then None
    else if s[0] == '"' then Some(0)
    else
      match QuoteIndex(s[1..])
      case None => None
      case Some(k) =>
        assert s[..k + 1] == [s[0]] + s[1..][..k];
        Some(k + 1)
  }

  /**
    Reads an attribute value up to its closing `"`; returns the value and the
    text after the quote.
  */
  function ReadQuoted(s: string): (r: Option<(string, string)>)
    ensures r.Some? ==> QuoteFree(r.value.0) && s == r.value.0 + "\"" + r.value.1
    ensures r.None? <==> QuoteFree(s)
  {
    var k :- QuoteIndex(s);
    assert s == s[..k] + "\"" + s[k + 1..];
    Some((s[..k], s[k + 1..]))
  }

  lemma {:induction false} QuoteIndexOfQuoteFree(f: string, t: string)
    requires QuoteFree(f)
    ensures QuoteIndex(f + "\"" + t) == Some(|f|)
    decreases |f|
  {
    if |f| > 0 {
      assert (f + "\"" + t)[1..] == f[1..] + "\"" + t;
      QuoteIndexOfQuoteFree(f[1..], t);
    }
  }

  lemma ReadQuotedRoundTrip(f: string, t: string)
    requires QuoteFree(f)
    ensures ReadQuoted(f + ("\"" + t)) == Some((f, t))
  {
    assert f + ("\"" + t) == f + "\"" + t;
    QuoteIndexOfQuoteFree(f, t);
    assert (f + "\"" + t)[..|f|] == f;
    assert (f + "\"" + t)[|f| + 1..] == t;
  }

  /** `t` is a suffix of `s`. */
  predicate EndsWith(s: string, t: string) {
    |s| >= |t| && s[|s| - |t|..] == t
  }

  lemma EndsWithItself(t: string)
    ensures EndsWith(t, t)
  {
  }

  /** Text put in front keeps a suffix a suffix. */
  lemma EndsWithPrepend(a: string, s: string, t: string)
    requires EndsWith(s, t)
    ensures EndsWith(a + s, t)
  {
    assert (a + s)[|a + s| - |t|..] == s[|s| - |t|..];
  }

  lemma EndsWithTransitive(s: string, u: string, t: string)
    requires EndsWith(s, u) && EndsWith(u, t)
    ensures EndsWith(s, t)
  {
    assert s[|s| - |t|..] == u[|u| - |t|..];
  }

  lemma Regroup(a: string, b: string, c: string, d: string, e: string)
    ensures a + (b + (c + (d + e))) == (a + (b + (c + d))) + e
  {
  }

  lemma PrefixOfConcat(a: string, b: string)
    ensures a <= a + b
  {
  }
}
