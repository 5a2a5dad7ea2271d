/** The SQL adapter's helpers: identifier quoting (escape), the marker
    counter that names placeholders, and the DSN option string. The old
    table container's _escape is the same quoting function. */
module Pdo {
  import opened Values
  import opened Assoc

  predicate IsIdentChar(c: char) {
    ('a' <= c <= 'z') || ('A' <= c <= 'Z') || c == '_'
  }

  /** End of the run of [a-z_] characters (case-insensitive) starting at p. */
  function RunEnd(s: string, p: nat): (q: nat)
    requires p <= |s|
    ensures p <= q <= |s|
    ensures q < |s| ==> !IsIdentChar(s[q])
    decreases |s| - p
  {
    if p < |s| && IsIdentChar(s[p]) then RunEnd(s, p + 1) else p
  }

  /** The lazy `(.+?)\)` tail: the first ')' at or after j, unless a newline
      (which '.' does not match) comes first. */
  function CloseFrom(s: string, j: nat): (r: Option<nat>)
    ensures r.Some? ==> j <= r.value < |s| && s[r.value] == ')'
    decreases |s| - j
  {
    if j >= |s| then None
    else if s[j] == ')' then Some(j)
    else if s[j] == '\n' then None
    else CloseFrom(s, j + 1)
  }

  /** Every character of the run is a letter or an underscore. */
  lemma {:induction false} RunEndIdent(s: string, p: nat)
    requires p <= |s|
    ensures forall k :: p <= k < RunEnd(s, p) ==> IsIdentChar(s[k])
    decreases |s| - p
  {
    if p < |s| && IsIdentChar(s[p]) {
      RunEndIdent(s, p + 1);
    }
  }

  /** No ')' and no newline comes before the closing parenthesis. */
  lemma {:induction false} CloseFromClean(s: string, j: nat)
    ensures CloseFrom(s, j).Some? ==> forall k :: j <= k < CloseFrom(s, j).value ==> s[k] != ')' && s[k] != '\n'
    decreases |s| - j
  {
    if j < |s| && s[j] != ')' && s[j] != '\n' {
      CloseFromClean(s, j + 1);
    }
  }

  /** A match of /([a-z_]+)\((.+?)\)/i: s[start..end] is name(inner). */
  datatype Call = Call(start: nat, name: string, inner: string, end: nat)

  /** The match of the function-call pattern that starts at p, if any. */
  function MatchAt(s: string, p: nat): (r: Option<Call>)
    ensures r.Some? ==> r.value.start == p && p <= r.value.end <= |s|
  {
    if p < |s| && IsIdentChar(s[p]) then
      var q := RunEnd(s, p);
      if q + 1 < |s| && s[q] == '(' && s[q + 1] != '\n' then
        match CloseFrom(s, q + 2)
        case Some(j) => Some(Call(p, s[p..q], s[q + 1..j], j + 1))
        case None => None
      else None
    else None
  }

  /** A match spells name(inner): a non-empty run of letters and
      underscores, '(', the shortest non-empty argument without a newline,
      ')'; only the argument's first character may be ')'. */
  lemma MatchAtShape(s: string, p: nat)
    requires MatchAt(s, p).Some?
    ensures var c := MatchAt(s, p).value;
      && |c.name| >= 1 && |c.inner| >= 1
      && (forall k :: 0 <= k < |c.name| ==> IsIdentChar(c.name[k]))
      && (forall k :: 0 <= k < |c.inner| ==> c.inner[k] != '\n')
      && (forall k :: 1 <= k < |c.inner| ==> c.inner[k] != ')')
      && s[p..c.end] == c.name + "(" + c.inner + ")"
  {
    var q := RunEnd(s, p);
    RunEndIdent(s, p);
    CloseFromClean(s, q + 2);
    var j := CloseFrom(s, q + 2).value;
    assert s[p..j + 1] == s[p..q] + "(" + s[q + 1..j] + ")";
  }

  function FindCallFrom(s: string, p: nat): (r: Option<Call>)
    decreases |s| - p
  {
    if p >= |s| then None
    else match MatchAt(s, p)
      case Some(c) => Some(c)
      case None => FindCallFrom(s, p + 1)
  }

  /** preg_match: the leftmost function-call match in s. */
  function FindCall(s: string): Option<Call> {
    FindCallFrom(s, 0)
  }

  lemma {:induction false} FindCallFromLeftmost(s: string, p: nat)
    ensures var r := FindCallFrom(s, p);
      && (r.Some? ==> p <= r.value.start && MatchAt(s, r.value.start) == r)
      && (r.Some? ==> forall k :: p <= k < r.value.start ==> MatchAt(s, k).None?)
      && (r.None? ==> forall k :: p <= k ==> MatchAt(s, k).None?)
    decreases |s| - p
  {
    if p < |s| && MatchAt(s, p).None? {
      FindCallFromLeftmost(s, p + 1);
    }
  }

  /** The match found is the leftmost one, and none is found only when the
      pattern matches nowhere. */
  lemma FindCallLeftmost(s: string)
    ensures FindCall(s).Some? ==> MatchAt(s, FindCall(s).value.start) == FindCall(s)
    ensures FindCall(s).Some? ==> forall k :: 0 <= k < FindCall(s).value.start ==> MatchAt(s, k).None?
    ensures FindCall(s).None? ==> forall k :: MatchAt(s, k).None?
  {
    FindCallFromLeftmost(s, 0);
  }

  function QuotePiece(p: string): string {
    if p == "*" then p else "`" + p + "`"
  }

  function QuotePieces(ps: seq<string>): (r: seq<string>)
    ensures |r| == |ps|
    ensures forall i :: 0 <= i < |ps| ==> r[i] == QuotePiece(ps[i])
  {
    seq(|ps|, i requires 0 <= i < |ps| => QuotePiece(ps[i]))
  }

  /** Quote every dotted segment other than '*'. */
  function QuoteDotted(s: string): string {
    Join(".", QuotePieces(Split(s, '.')))
  }

  /** Pdo::escape (and Table::_escape). */
  function Escape(str: string): string {
    if str == "*" then str
    else match FindCall(str)
      case Some(c) => c.name + "(" + QuoteDotted(c.inner) + ")"
      case None => QuoteDotted(str)
  }

  /** Inverse of QuotePiece. */
  function Unwrap(p: string): string {
    if |p| >= 2 && p[0] == '`' && p[|p| - 1] == '`' then p[1..|p| - 1] else p
  }

  function UnquoteDotted(t: string): string {
    var ps := Split(t, '.');
    Join(".", seq(|ps|, i requires 0 <= i < |ps| => Unwrap(ps[i])))
  }

  lemma UnwrapQuote(p: string)
    ensures Unwrap(QuotePiece(p)) == p
  {
    if p != "*" {
      var q := "`" + p + "`";
      assert q[1..|q| - 1] == p;
    }
  }

  /** Quoting a dotted name loses nothing: removing the backticks segment by
      segment gives the name back. */
  lemma QuoteDottedRoundTrip(s: string)
    ensures UnquoteDotted(QuoteDotted(s)) == s
  {
    var ps := Split(s, '.');
    var qs := QuotePieces(ps);
    forall p | p in ps ensures '.' !in p {
      SplitPiecesFree(s, '.', p);
    }
    forall q | q in qs ensures '.' !in q {
      var i :| 0 <= i < |qs| && qs[i] == q;
      assert ps[i] in ps;
    }
    SplitJoin(qs, '.');
    var us := seq(|qs|, i requires 0 <= i < |qs| => Unwrap(qs[i]));
    forall i | 0 <= i < |qs| ensures us[i] == ps[i] {
      UnwrapQuote(ps[i]);
    }
    assert us == ps;
    JoinSplit(s, '.');
  }

  /** The pieces of explode never contain the separator. */
  lemma {:induction false} SplitPiecesFree(s: string, c: char, p: string)
    requires p in Split(s, c)
    ensures c !in p
    decreases |s|
  {
    var k := IndexOf(s, c);
    if k < |s| {
      if p != s[..k] {
        SplitPiecesFree(s[k + 1..], c, p);
      }
    }
  }

  /** Without a function call, escape is undone by removing the backticks:
      's.f' becomes `s`.`f` and 't.*' becomes `t`.*. */
  lemma EscapeWithoutCallRoundTrip(s: string)
    requires FindCall(s).None?
    ensures UnquoteDotted(Escape(s)) == s
  {
    if s != "*" {
      QuoteDottedRoundTrip(s);
    }
  }

  /** With a call, only the argument is quoted and the name is kept;
      whatever stands outside the leftmost match is dropped. */
  lemma EscapeCall(s: string)
    requires s != "*" && FindCall(s).Some?
    ensures var c := FindCall(s).value;
      && c.start <= c.end <= |s|
      && Escape(s) == c.name + "(" + QuoteDotted(c.inner) + ")"
      && s[c.start..c.end] == c.name + "(" + c.inner + ")"
      && UnquoteDotted(QuoteDotted(c.inner)) == c.inner
  {
    FindCallLeftmost(s);
    MatchAtShape(s, FindCall(s).value.start);
    QuoteDottedRoundTrip(FindCall(s).value.inner);
  }

  /** escape('*') and escape('COUNT(*)') are returned unchanged. */
  lemma EscapeStars(count: string)
    requires count == "COUNT(*)"
    ensures Escape("*") == "*"
    ensures Escape(count) == count
  {
    assert count[5] == '(' && !IsIdentChar(count[5]);
    assert RunEnd(count, 5) == 5;
    assert RunEnd(count, 4) == 5;
    assert RunEnd(count, 3) == 5;
    assert RunEnd(count, 2) == 5;
    assert RunEnd(count, 1) == 5;
    assert RunEnd(count, 0) == 5;
    assert count[0..5] == "COUNT" && count[6..7] == "*";
    assert CloseFrom(count, 7) == Some(7);
    assert MatchAt(count, 0) == Some(Call(0, "COUNT", "*", 8));
    assert FindCall(count) == Some(Call(0, "COUNT", "*", 8));
    assert Split("*", '.') == ["*"];
  }

  /** The name of the n-th placeholder. */
  function MarkerName(n: nat): string {
    "marker" + NatToStr(n)
  }

  lemma MarkerNamesDistinct(a: nat, b: nat)
    requires a != b
    ensures MarkerName(a) != MarkerName(b)
  {
    if MarkerName(a) == MarkerName(b) {
      var pa, pb := "marker" + NatToStr(a), "marker" + NatToStr(b);
      assert NatToStr(a) == pa[6..];
      assert NatToStr(b) == pb[6..];
      NatToStrInjective(a, b);
    }
  }

  /** The SQL database adapter's state that the translators use: the marker
      counter and the namespace prefixed to container names. */
  class Database {
    var marker: nat
    const namespace: string
    ghost var issued: set<string>

    ghost predicate Valid()
      reads this
    {
      issued == set k | 1 <= k <= marker :: MarkerName(k)
    }

    constructor (namespace: string)
      ensures Valid() && marker == 0 && this.namespace == namespace
    {
      this.namespace := namespace;
      marker := 0;
      issued := {};
    }

    /** getMarker: 'marker' followed by the incremented counter; never a
        name issued before. */
    method GetMarker() returns (m: string)
      requires Valid()
      modifies this`marker, this`issued
      ensures Valid()
      ensures marker == old(marker) + 1 && m == MarkerName(marker)
      ensures m !in old(issued) && issued == old(issued) + {m}
    {
      marker := marker + 1;
      m := MarkerName(marker);
      forall k | 1 <= k <= marker - 1 ensures MarkerName(k) != m {
        MarkerNamesDistinct(k, marker);
      }
      issued := issued + {m};
    }
  }

  /** One DSN option as name=value. */
  function OptionPair(e: Entry<Value>): string {
    e.key + "=" + ToStr(e.val)
  }

  /** _concatenateOptions: name=value pairs in insertion order, ';'-separated. */
  function ConcatenateOptions(options: seq<Entry<Value>>): string {
    Join(";", seq(|options|, i requires 0 <= i < |options| => OptionPair(options[i])))
  }

  /** The option string splits back into the pairs, in order, when no name or
      value contains ';'; no options give the empty string. */
  lemma ConcatenateOptionsSplits(options: seq<Entry<Value>>)
    requires forall i :: 0 <= i < |options| ==> ';' !in OptionPair(options[i])
    ensures |options| == 0 ==> ConcatenateOptions(options) == ""
    ensures |options| > 0 ==> Split(ConcatenateOptions(options), ';')
                              == seq(|options|, i requires 0 <= i < |options| => OptionPair(options[i]))
  {
    var ps := seq(|options|, i requires 0 <= i < |options| => OptionPair(options[i]));
    if |options| > 0 {
      forall p | p in ps ensures ';' !in p {
        var i :| 0 <= i < |ps| && ps[i] == p;
      }
      SplitJoin(ps, ';');
    }
  }
}
