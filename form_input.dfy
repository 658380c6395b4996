/** What the form components read from their inputs: `String.prototype.trim`
    on text fields, and number fields that are either empty or hold the value
    `parseFloat`/`parseInt` produced. Both forms apply the same acceptance rule
    (src/components/TransactionForm.tsx:38, src/components/EditModal.tsx:41). */
module FormInput {

  /** A number input: `''` or the value its text parses to. */
  datatype Field<T> = Blank | Filled(value: T)

  /** ECMAScript WhiteSpace and LineTerminator code points, the set `trim` removes. */
  predicate IsWhitespace(c: char) {
    || c == '\t' || c == '\n' || c == '\U{B}' || c == '\U{C}' || c == '\r'
    || c == ' ' || c == '\U{A0}' || c == '\U{1680}'
    || ('\U{2000}' <= c <= '\U{200A}')
    || c == '\U{2028}' || c == '\U{2029}' || c == '\U{202F}' || c == '\U{205F}'
    || c == '\U{3000}' || c == '\U{FEFF}'
  }

  function TrimStart(s: string): string
  {
    if s != [] && IsWhitespace(s[0]) then TrimStart(s[1..]) else s
  }

  function TrimEnd(s: string): string
  {
    if s != [] && IsWhitespace(s[|s| - 1]) then TrimEnd(s[..|s| - 1]) else s
  }

  function Trim(s: string): (r: string)
    ensures |r| <= |s|
    ensures r != [] ==> !IsWhitespace(r[0]) && !IsWhitespace(r[|r| - 1])
  {
    TrimStartFacts(s);
    TrimEndFacts(TrimStart(s));
    TrimEnd(TrimStart(s))
  }

  ghost predicate AllWhitespace(s: string) {
    forall i :: 0 <= i < |s| ==> IsWhitespace(s[i])
  }

  /** `r` is `s[lo..hi]` and everything cut off on either side is whitespace. */
  ghost predicate IsTrimmedSlice(r: string, s: string) {
    exists lo, hi :: 0 <= lo <= hi <= |s| && r == s[lo..hi] && AllWhitespace(s[..lo]) && AllWhitespace(s[hi..])
  }

  lemma {:induction false} TrimStartFacts(s: string)
    ensures |TrimStart(s)| <= |s| && TrimStart(s) == s[|s| - |TrimStart(s)|..]
    ensures TrimStart(s) == [] <==> AllWhitespace(s)
    ensures TrimStart(s) != [] ==> !IsWhitespace(TrimStart(s)[0])
    ensures AllWhitespace(s[..|s| - |TrimStart(s)|])
    decreases |s|
  {
    if s != [] && IsWhitespace(s[0]) {
      TrimStartFacts(s[1..]);
      var k := |s| - |TrimStart(s)|;
      assert s[1..][k - 1..] == s[k..];
      assert forall i :: 1 <= i < k ==> s[i] == s[1..][..k - 1][i - 1];
    }
  }

  lemma {:induction false} TrimEndFacts(s: string)
    ensures |TrimEnd(s)| <= |s| && TrimEnd(s) == s[..|TrimEnd(s)|]
    ensures TrimEnd(s) == [] <==> AllWhitespace(s)
    ensures TrimEnd(s) != [] ==> !IsWhitespace(TrimEnd(s)[|TrimEnd(s)| - 1])
    ensures TrimEnd(s) != [] ==> TrimEnd(s)[0] == s[0]
    ensures AllWhitespace(s[|TrimEnd(s)|..])
    decreases |s|
  {
    if s != [] && IsWhitespace(s[|s| - 1]) {
      var s' := s[..|s| - 1];
      TrimEndFacts(s');
      var k := |TrimEnd(s')|;
      assert s'[..k] == s[..k];
      assert forall i :: 0 <= i < |s| - 1 ==> s[i] == s'[i];
      assert forall i :: k <= i < |s| - 1 ==> s[i] == s'[k..][i - k];
    }
  }

  /** What `trim` returns: the piece of its input left after cutting off
      whitespace on both sides, so that it neither starts nor ends with
      whitespace; it is empty exactly when the input is all whitespace. */
  lemma TrimSpec(s: string)
    ensures IsTrimmedSlice(Trim(s), s)
    ensures Trim(s) == [] <==> AllWhitespace(s)
    ensures Trim(s) != [] ==> !IsWhitespace(Trim(s)[0]) && !IsWhitespace(Trim(s)[|Trim(s)| - 1])
  {
    var t := TrimStart(s);
    TrimStartFacts(s);
    TrimEndFacts(t);
    var lo := |s| - |t|;
    var hi := lo + |Trim(s)|;
    assert Trim(s) == s[lo..hi];
    assert s[hi..] == t[|Trim(s)|..];
    if t == [] {
      assert s[..lo] == s;
    }
  }

  /** Trimming twice is trimming once. */
  lemma TrimIdempotent(s: string)
    ensures Trim(Trim(s)) == Trim(s)
  {
    TrimSpec(s);
    var r := Trim(s);
    if r != [] {
      assert TrimStart(r) == r;
      assert TrimEnd(r) == r;
    }
  }

  /** The shared rule `!title.trim() || !amount || parseFloat(amount) <= 0`
      rejects; this is its negation. */
  predicate EntryAccepted(title: string, amount: Field<real>) {
    Trim(title) != [] && amount.Filled? && amount.value > 0.0
  }

  /** A title is accepted exactly when it holds some character that is not whitespace. */
  lemma EntryAcceptedSpec(title: string, amount: Field<real>)
    ensures EntryAccepted(title, amount) <==>
      (exists i :: 0 <= i < |title| && !IsWhitespace(title[i])) && amount.Filled? && amount.value > 0.0
  {
    TrimSpec(title);
  }
}
