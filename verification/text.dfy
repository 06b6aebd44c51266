/** The few pieces of Go's strings and strconv packages the command handlers
    rely on: TrimSpace, Split on a one-character separator, Atoi, ParseBool
    and the decimal rendering of an int by fmt's %v verb. */
module Text {
  import opened Opt

  /** unicode.IsSpace, which strings.TrimSpace uses. */
  predicate IsSpace(c: char) {
    || c == ' ' || c == '\t' || c == '\n' || c == '\U{000B}' || c == '\U{000C}' || c == '\r'
    || c == '\U{0085}' || c == '\U{00A0}' || c == '\U{1680}'
    || ('\U{2000}' <= c <= '\U{200A}')
    || c == '\U{2028}' || c == '\U{2029}' || c == '\U{202F}' || c == '\U{205F}' || c == '\U{3000}'
  }

  ghost predicate AllSpace(s: string) {
    forall k :: 0 <= k < |s| ==> IsSpace(s[k])
  }

  /** Number of white-space characters at the front of s. */
  function LeadingSpaces(s: string): (n: nat)
    ensures n <= |s|
    ensures AllSpace(s[..n])
    ensures n < |s| ==> !IsSpace(s[n])
  {
    if s == [] || !IsSpace(s[0]) then 0 else 1 + LeadingSpaces(s[1..])
  }

  /** Number of white-space characters at the back of s. */
  function TrailingSpaces(s: string): (n: nat)
    ensures n <= |s|
    ensures AllSpace(s[|s| - n..])
    ensures n < |s| ==> !IsSpace(s[|s| - 1 - n])
  {
    if s == [] || !IsSpace(s[|s| - 1]) then 0 else 1 + TrailingSpaces(s[..|s| - 1])
  }

  /** strings.TrimSpace: the result is the middle of s, with white space on
      neither of its ends, and only white space was removed around it. */
  function TrimSpace(s: string): (r: string)
    ensures r == [] || (!IsSpace(r[0]) && !IsSpace(r[|r| - 1]))
    ensures var i := LeadingSpaces(s); i + |r| <= |s| && s[i..i + |r|] == r && AllSpace(s[..i]) && AllSpace(s[i + |r|..])
  {
    var a := LeadingSpaces(s);
    var rest := s[a..];
    var b := TrailingSpaces(rest);
    var r := rest[..|rest| - b];
    assert r != [] ==> r[0] == s[a] && r[|r| - 1] == rest[|rest| - 1 - b];
    assert s[a..a + |r|] == r;
    assert s[a + |r|..] == rest[|rest| - b..];
    assert AllSpace(s[..a]) && AllSpace(s[a + |r|..]);
    r
  }

  /** TrimSpace is determined by its contract: stripping white space around
      a text that neither starts nor ends with white space gives that text. */
  lemma {:induction false} TrimSpaceOf(p: string, t: string, q: string)
    requires AllSpace(p) && AllSpace(q)
    requires t == [] || (!IsSpace(t[0]) && !IsSpace(t[|t| - 1]))
    ensures TrimSpace(p + t + q) == t
  {
    var s := p + t + q;
    if t == [] {
      assert s == (p + q) + [];
      LeadingOf(p + q, []);
    } else {
      assert s == p + (t + q);
      LeadingOf(p, t + q);
      assert s[LeadingSpaces(s)..] == t + q;
      TrailingOf(t, q);
    }
  }

  lemma {:induction false} LeadingOf(p: string, u: string)
    requires AllSpace(p)
    requires u == [] || !IsSpace(u[0])
    ensures LeadingSpaces(p + u) == |p|
    decreases |p|
  {
    if p != [] {
      assert (p + u)[1..] == p[1..] + u;
      LeadingOf(p[1..], u);
    } else {
      assert p + u == u;
    }
  }

  lemma {:induction false} TrailingOf(u: string, q: string)
    requires AllSpace(q)
    requires u == [] || !IsSpace(u[|u| - 1])
    ensures TrailingSpaces(u + q) == |q|
    decreases |q|
  {
    if q != [] {
      assert (u + q)[..|u + q| - 1] == u + q[..|q| - 1];
      TrailingOf(u, q[..|q| - 1]);
    } else {
      assert u + q == u;
    }
  }

  /** Trimming twice is trimming once. */
  lemma TrimSpaceIdempotent(s: string)
    ensures TrimSpace(TrimSpace(s)) == TrimSpace(s)
  {
    var r := TrimSpace(s);
    assert [] + r + [] == r;
    TrimSpaceOf([], r, []);
  }

  // ---------------------------------------------------------------------
  // strings.Split with a one-character separator, and strings.Join

  /** Index of the first c in s, or |s| when there is none. */
  function IndexOf(s: string, c: char): (i: nat)
    ensures i <= |s|
    ensures i < |s| ==> s[i] == c
    ensures forall k :: 0 <= k < i ==> s[k] != c
  {
    if s == [] then 0 else if s[0] == c then 0 else 1 + IndexOf(s[1..], c)
  }

  /** strings.Join(ts, string(sep)). */
  function Join(ts: seq<string>, sep: char): string {
    if ts == [] then [] else if |ts| == 1 then ts[0] else ts[0] + [sep] + Join(ts[1..], sep)
  }

  /** strings.Split(s, string(sep)): the pieces between separators, never
      empty as a list (Split("", " ") is [""]); joining them back gives s. */
  function Split(s: string, sep: char): (ts: seq<string>)
    ensures |ts| >= 1
    ensures forall k :: 0 <= k < |ts| ==> sep !in ts[k]
    ensures Join(ts, sep) == s
    decreases |s|
  {
    var i := IndexOf(s, sep);
    if i == |s| then
      [s]
    else
      var rest := Split(s[i + 1..], sep);
      assert s == s[..i] + [sep] + s[i + 1..];
      [s[..i]] + rest
  }

  /** Splitting a join of separator-free pieces gives the pieces back. */
  lemma {:induction false} SplitJoin(ts: seq<string>, sep: char)
    requires |ts| >= 1
    requires forall k :: 0 <= k < |ts| ==> sep !in ts[k]
    ensures Split(Join(ts, sep), sep) == ts
  {
    var s := Join(ts, sep);
    if |ts| == 1 {
      assert IndexOf(s, sep) == |s|;
    } else {
      var t := ts[0];
      assert s == t + [sep] + Join(ts[1..], sep);
      IndexOfAfter(t, Join(ts[1..], sep), sep);
      assert s[|t| + 1..] == Join(ts[1..], sep);
      SplitJoin(ts[1..], sep);
      assert s[..|t|] == t;
      assert ts == [t] + ts[1..];
    }
  }

  /** Separator-free pieces joined by single spaces, with white space
      around them and none at the ends of the join, split back into the
      pieces after trimming. */
  lemma SplitTrimmed(ts: seq<string>, p: string, q: string)
    requires |ts| >= 1
    requires forall k :: 0 <= k < |ts| ==> ' ' !in ts[k]
    requires var s := Join(ts, ' '); s != [] && !IsSpace(s[0]) && !IsSpace(s[|s| - 1])
    requires AllSpace(p) && AllSpace(q)
    ensures Split(TrimSpace(p + Join(ts, ' ') + q), ' ') == ts
  {
    TrimSpaceOf(p, Join(ts, ' '), q);
    SplitJoin(ts, ' ');
  }

  lemma IndexOfAfter(t: string, u: string, sep: char)
    requires sep !in t
    ensures IndexOf(t + [sep] + u, sep) == |t|
  {
    assert forall k :: 0 <= k < |t| ==> (t + [sep] + u)[k] == t[k];
    assert (t + [sep] + u)[|t|] == sep;
  }

  // ---------------------------------------------------------------------
  // strconv.Atoi and the decimal rendering of an int

  /** Go's int is taken to be 64 bits. */
  const IntMin: int := -0x8000_0000_0000_0000
  const IntMax: int := 0x7FFF_FFFF_FFFF_FFFF

  predicate IsDigit(c: char) {
    '0' <= c <= '9'
  }

  predicate AllDigits(s: string) {
    forall k :: 0 <= k < |s| ==> IsDigit(s[k])
  }

  function DigitsValue(s: string): nat
    requires AllDigits(s)
  {
    if s == [] then 0 else DigitsValue(s[..|s| - 1]) * 10 + (s[|s| - 1] as int - '0' as int)
  }

  /** strconv.Atoi: an optional '+' or '-', then one or more decimal digits
      and nothing else, whose value fits Go's int. */
  function ParseInt(s: string): (r: Option<int>)
    ensures r.Some? ==> IntMin <= r.value <= IntMax
    ensures r.Some? ==> |s| >= 1 && (IsDigit(s[0]) || s[0] == '+' || s[0] == '-') && AllDigits(s[1..])
    ensures r.Some? ==> (r.value < 0 ==> s[0] == '-')
  {
    if s == [] then None
    else
      var body := if s[0] == '+' || s[0] == '-' then s[1..] else s;
      if body == [] || !AllDigits(body) then None
      else
        var v: int := if s[0] == '-' then 0 - DigitsValue(body) as int else DigitsValue(body) as int;
        if IntMin <= v <= IntMax then Some(v) else None
  }

  function Digit(d: nat): (c: char)
    requires d < 10
    ensures IsDigit(c)
  {
    ('0' as int + d) as char
  }

  /** Decimal digits of n, with no leading zero. */
  function FormatNat(n: nat): (s: string)
    ensures |s| >= 1 && AllDigits(s)
    ensures s[0] == '0' ==> n == 0
  {
    if n < 10 then [Digit(n)] else FormatNat(n / 10) + [Digit(n % 10)]
  }

  /** fmt's %v (and strconv.Itoa) of an int. */
  function FormatInt(n: int): (s: string)
    ensures |s| >= 1 && (IsDigit(s[0]) || s[0] == '-') && AllDigits(s[1..]) && IsDigit(s[|s| - 1])
  {
    if n < 0 then "-" + FormatNat(-n) else FormatNat(n)
  }

  lemma {:induction false} FormatNatValue(n: nat)
    ensures DigitsValue(FormatNat(n)) == n
  {
    if n >= 10 {
      var s := FormatNat(n);
      assert s[..|s| - 1] == FormatNat(n / 10);
      FormatNatValue(n / 10);
    }
  }

  /** Atoi reads a run of digits as its value, when that fits. */
  lemma ParseDigits(d: string)
    requires |d| >= 1 && AllDigits(d) && DigitsValue(d) <= IntMax
    ensures ParseInt(d) == Some(DigitsValue(d) as int)
  {
    assert IsDigit(d[0]);
  }

  /** Atoi reads a minus sign and a run of digits as the negated value,
      when that fits. */
  lemma ParseMinusDigits(d: string)
    requires |d| >= 1 && AllDigits(d) && IntMin <= 0 - DigitsValue(d) as int
    ensures ParseInt("-" + d) == Some(0 - DigitsValue(d) as int)
  {
    var s := "-" + d;
    assert s[0] == '-' && s[1..] == d;
  }

  /** Atoi reads back every int that %v renders. */
  lemma ParseFormatInt(n: int)
    requires IntMin <= n <= IntMax
    ensures ParseInt(FormatInt(n)) == Some(n)
  {
    if n < 0 {
      FormatNatValue(-n);
      ParseMinusDigits(FormatNat(-n));
    } else {
      FormatNatValue(n);
      ParseDigits(FormatNat(n));
    }
  }

  /** The decimal text of an int holds no white space at either end and no
      space at all. */
  lemma FormatIntPlain(n: int)
    ensures var s := FormatInt(n); ' ' !in s && !IsSpace(s[0]) && !IsSpace(s[|s| - 1])
  {
    var s := FormatInt(n);
    forall k | 0 <= k < |s| ensures s[k] != ' ' {
      if k > 0 {
        assert s[1..][k - 1] == s[k];
      }
    }
  }

  lemma FormatBoolPlain(b: bool)
    ensures var s := FormatBool(b); |s| > 0 && ' ' !in s && !IsSpace(s[|s| - 1])
  {
  }

  lemma Join2(a: string, b: string, sep: char)
    ensures Join([a, b], sep) == a + [sep] + b
  {
    assert [a, b][1..] == [b];
  }

  lemma Join3(a: string, b: string, c: string, sep: char)
    ensures Join([a, b, c], sep) == a + [sep] + b + [sep] + c
  {
    assert [a, b, c][1..] == [b, c];
    Join2(b, c, sep);
  }

  /** strconv.ParseBool. */
  function ParseBool(s: string): (r: Option<bool>)
    ensures r.Some? ==> 1 <= |s| <= 5
  {
    if s in {"1", "t", "T", "TRUE", "true", "True"} then Some(true)
    else if s in {"0", "f", "F", "FALSE", "false", "False"} then Some(false)
    else None
  }

  /** strconv.FormatBool. */
  function FormatBool(b: bool): string {
    if b then "true" else "false"
  }

  lemma ParseFormatBool(b: bool)
    ensures ParseBool(FormatBool(b)) == Some(b)
  {
  }
}
