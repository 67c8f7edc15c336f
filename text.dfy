/**
 * String helpers behind the compiler's output: decimal printing (for temporary names and
 * integer literals), the escaping that `compileLiteral` applies to string literals, and
 * JavaScript's `Array.prototype.join`.
 */
module Text {
  import opened Wrappers

  function DigitChar(d: nat): (c: char)
    requires d < 10
    ensures '0' <= c <= '9' && c as int - '0' as int == d
  {
    ('0' as int + d) as char
  }

  /** Decimal digits of `n`, as JavaScript prints a non-negative integer. */
  function NatToString(n: nat): (r: string)
    ensures |r| >= 1
    ensures forall i :: 0 <= i < |r| ==> '0' <= r[i] <= '9'
    ensures (n < 10) == (|r| == 1)
  {
    if n < 10 then [DigitChar(n)] else NatToString(n / 10) + [DigitChar(n % 10)]
  }

  /** Reads a string of decimal digits back into a number. */
  function DecimalValue(s: string): nat
    requires forall i :: 0 <= i < |s| ==> '0' <= s[i] <= '9'
  {
    if s == [] then 0
    else DecimalValue(s[..|s| - 1]) * 10 + (s[|s| - 1] as int - '0' as int)
  }

  /** Printing a number in decimal and reading it back gives the number. */
  lemma {:induction false} DecimalRoundTrip(n: nat)
    ensures DecimalValue(NatToString(n)) == n
  {
    if n >= 10 {
      var s := NatToString(n);
      assert s[..|s| - 1] == NatToString(n / 10);
      DecimalRoundTrip(n / 10);
    }
  }

  /** Distinct numbers print differently. */
  lemma NatToStringInjective(a: nat, b: nat)
    requires a != b
    ensures NatToString(a) != NatToString(b)
  {
    DecimalRoundTrip(a);
    DecimalRoundTrip(b);
  }

  /** The name `tmpid` hands out for counter value `n`. */
  function TmpName(n: nat): (r: string)
    ensures |r| == |NatToString(n)| + 2 && r[..2] == "t_" && r[2..] == NatToString(n)
  {
    "t_" + NatToString(n)
  }

  /** Temporaries issued for distinct counter values never collide. */
  lemma TmpNameInjective(a: nat, b: nat)
    requires a != b
    ensures TmpName(a) != TmpName(b)
  {
    NatToStringInjective(a, b);
  }

  /** `String(i)` for an integral JavaScript number. */
  function IntToString(i: int): string
  {
    if i < 0 then "-" + NatToString(-i) else NatToString(i)
  }

  /** JavaScript's `s.replace(/c/g, rep)`: every occurrence of `c` replaced by `rep`. */
  function ReplaceAll(s: string, c: char, rep: string): (r: string)
    ensures forall x :: x in r ==> (x in s && x != c) || x in rep
    ensures c !in s ==> r == s
  {
    if s == [] then ""
    else (if s[0] == c then rep else [s[0]]) + ReplaceAll(s[1..], c, rep)
  }

  lemma {:induction false} ReplaceAllAppend(a: string, b: string, c: char, rep: string)
    ensures ReplaceAll(a + b, c, rep) == ReplaceAll(a, c, rep) + ReplaceAll(b, c, rep)
  {
    if a == [] {
      assert a + b == b;
    } else {
      assert (a + b)[0] == a[0] && (a + b)[1..] == a[1..] + b;
      ReplaceAllAppend(a[1..], b, c, rep);
    }
  }

  /**
   * The escaping `compileLiteral` applies to a string value, as written: four successive
   * global replaces, of `"`, newline, carriage return and tab.  Backslashes are left alone.
   */
  function EscapeAsWritten(s: string): (r: string)
    ensures '\n' !in r && '\r' !in r && '\t' !in r
  {
    ReplaceAll(ReplaceAll(ReplaceAll(ReplaceAll(s, '"', "\\\""), '\n', "\\n"), '\r', "\\r"), '\t', "\\t")
  }

  /** The escape of one character, as the four passes together treat it. */
  function EscapeChar(c: char): (r: string)
    ensures c !in "\"\n\r\t" ==> r == [c]
  {
    if c == '"' then "\\\""
    else if c == '\n' then "\\n"
    else if c == '\r' then "\\r"
    else if c == '\t' then "\\t"
    else [c]
  }

  /** Character-by-character escaping: a reference definition for `EscapeAsWritten`. */
  function Escape(s: string): (r: string)
    ensures |r| >= |s|
    ensures (forall i :: 0 <= i < |s| ==> s[i] !in "\"\n\r\t") ==> r == s
  {
    if s == [] then "" else EscapeChar(s[0]) + Escape(s[1..])
  }

  /** Each of the four passes works on the two halves of a concatenation separately. */
  lemma EscapeAsWrittenAppend(a: string, b: string)
    ensures EscapeAsWritten(a + b) == EscapeAsWritten(a) + EscapeAsWritten(b)
  {
    var q1, q2 := ReplaceAll(a, '"', "\\\""), ReplaceAll(b, '"', "\\\"");
    ReplaceAllAppend(a, b, '"', "\\\"");
    var n1, n2 := ReplaceAll(q1, '\n', "\\n"), ReplaceAll(q2, '\n', "\\n");
    ReplaceAllAppend(q1, q2, '\n', "\\n");
    var r1, r2 := ReplaceAll(n1, '\r', "\\r"), ReplaceAll(n2, '\r', "\\r");
    ReplaceAllAppend(n1, n2, '\r', "\\r");
    ReplaceAllAppend(r1, r2, '\t', "\\t");
  }

  /** On a single character the four passes give its own escape. */
  lemma EscapeAsWrittenOne(c: char)
    ensures EscapeAsWritten([c]) == EscapeChar(c)
  {
    assert ReplaceAll([c], '"', "\\\"") == if c == '"' then "\\\"" else [c];
  }

  /** The four passes never interfere, so they amount to escaping each character on its own. */
  lemma {:induction false} EscapeAsWrittenIsCharwise(s: string)
    ensures EscapeAsWritten(s) == Escape(s)
  {
    if s != [] {
      assert s == [s[0]] + s[1..];
      EscapeAsWrittenAppend([s[0]], s[1..]);
      EscapeAsWrittenOne(s[0]);
      EscapeAsWrittenIsCharwise(s[1..]);
    }
  }

  /**
   * Reads the body of a JavaScript double-quoted string literal, for the escapes
   * `\"`, `\'`, `\\`, `\n`, `\r`, `\t`.  Absent when the text is not such a body: an
   * unescaped `"` (it would end the literal early), a raw line break, a trailing backslash,
   * or an escape outside that list.
   */
  function Unescape(t: string): Option<string>
  {
    if t == [] then Some("")
    else if t[0] == '"' || t[0] == '\n' || t[0] == '\r' then None
    else if t[0] != '\\' then Prepend(t[0], Unescape(t[1..]))
    else if |t| < 2 then None
    else if t[1] == '"' || t[1] == '\'' || t[1] == '\\' then Prepend(t[1], Unescape(t[2..]))
    else if t[1] == 'n' then Prepend('\n', Unescape(t[2..]))
    else if t[1] == 'r' then Prepend('\r', Unescape(t[2..]))
    else if t[1] == 't' then Prepend('\t', Unescape(t[2..]))
    else None
  }

  function Prepend(c: char, o: Option<string>): Option<string>
  {
    match o
    case None => None
    case Some(s) => Some([c] + s)
  }

  lemma UnescapeEscapeChar(c: char, t: string)
    requires c != '\\'
    ensures Unescape(EscapeChar(c) + t) == Prepend(c, Unescape(t))
  {
    var e := EscapeChar(c) + t;
    if c in "\"\n\r\t" {
      assert e[2..] == t;
    } else {
      assert e[1..] == t;
    }
  }

  /**
   * For a value without backslashes, the emitted literal body reads back as exactly the value.
   */
  lemma {:induction false} EscapeRoundTrip(s: string)
    requires '\\' !in s
    ensures Unescape(EscapeAsWritten(s)) == Some(s)
  {
    EscapeAsWrittenIsCharwise(s);
    if s != [] {
      EscapeAsWrittenIsCharwise(s[1..]);
      EscapeRoundTrip(s[1..]);
      UnescapeEscapeChar(s[0], Escape(s[1..]));
      assert s == [s[0]] + s[1..];
    }
  }

  /**
   * Backslashes are not escaped, so the round trip fails for a value containing one: the
   * two-character value backslash, `n` reads back as a single newline.
   */
  lemma BackslashNotEscaped()
    ensures EscapeAsWritten("\\n") == "\\n"
    ensures Unescape(EscapeAsWritten("\\n")) == Some("\n")
  {
    var v := "\\n";
    EscapeAsWrittenIsCharwise(v);
    assert Escape(v) == EscapeChar('\\') + EscapeChar('n') + Escape("");
    assert v[0] == '\\' && v[1] == 'n' && v[2..] == "";
    assert Unescape(v) == Prepend('\n', Unescape(""));
    assert Unescape("") == Some("");
    assert ['\n'] + "" == "\n";
  }

  /** JavaScript's `xs.join(sep)`. */
  function Join(xs: seq<string>, sep: string): (r: string)
    ensures xs != [] ==> xs[0] <= r
  {
    if xs == [] then ""
    else if |xs| == 1 then xs[0]
    else xs[0] + sep + Join(xs[1..], sep)
  }

  /** Joining with no separator: appending a fragment appends exactly its text. */
  lemma {:induction false} JoinAppend(xs: seq<string>, x: string)
    ensures Join(xs + [x], "") == Join(xs, "") + x
  {
    if |xs| == 1 {
      assert xs + [x] == [xs[0], x];
    } else if |xs| > 1 {
      assert (xs + [x])[1..] == xs[1..] + [x];
      JoinAppend(xs[1..], x);
    }
  }

  /** Joining one more string adds the separator and that string. */
  lemma {:induction false} JoinSnoc(xs: seq<string>, x: string, sep: string)
    requires xs != []
    ensures Join(xs + [x], sep) == Join(xs, sep) + sep + x
  {
    if |xs| == 1 {
      assert xs + [x] == [xs[0], x];
      assert Join([x], sep) == x;
    } else {
      assert (xs + [x])[1..] == xs[1..] + [x];
      JoinSnoc(xs[1..], x, sep);
    }
  }

  /**
   * The fragments a loop emits when it writes `sep` before every string but the first:
   * joined with nothing between them, they read as `xs.join(sep)`.
   */
  function Separated(xs: seq<string>, sep: string): (r: seq<string>)
    ensures Join(r, "") == Join(xs, sep)
  {
    if |xs| <= 1 then xs
    else
      var init, last := xs[..|xs| - 1], xs[|xs| - 1];
      var r0 := Separated(init, sep);
      JoinAppend(r0 + [sep], last);
      JoinAppend(r0, sep);
      JoinSnoc(init, last, sep);
      assert xs == init + [last];
      assert r0 + [sep, last] == r0 + [sep] + [last];
      r0 + [sep, last]
  }

  /** The text of a prefix of the fragments is a prefix of the whole text. */
  lemma {:induction false} JoinPrefix(xs: seq<string>, k: nat)
    requires k <= |xs|
    ensures Join(xs[..k], "") <= Join(xs, "")
    decreases |xs| - k
  {
    if k < |xs| {
      JoinPrefix(xs, k + 1);
      assert xs[..k + 1] == xs[..k] + [xs[k]];
      JoinAppend(xs[..k], xs[k]);
    } else {
      assert xs[..k] == xs;
    }
  }

  /** The elements of `xs` occur in `ys` in the same order, not necessarily next to each other. */
  predicate Subsequence<T(==)>(xs: seq<T>, ys: seq<T>)
    decreases |ys|
  {
    xs == [] ||
    (ys != [] && ((ys[0] == xs[0] && Subsequence(xs[1..], ys[1..])) || Subsequence(xs, ys[1..])))
  }

  /** Every element of a subsequence occurs in the sequence. */
  lemma {:induction false} SubsequenceMembers<T>(xs: seq<T>, ys: seq<T>)
    requires Subsequence(xs, ys)
    ensures forall x :: x in xs ==> x in ys
    decreases |ys|
  {
    if xs != [] {
      if ys[0] == xs[0] && Subsequence(xs[1..], ys[1..]) {
        SubsequenceMembers(xs[1..], ys[1..]);
        assert forall x :: x in xs ==> x == xs[0] || x in xs[1..];
      } else {
        SubsequenceMembers(xs, ys[1..]);
      }
    }
  }

  /** Putting elements in front keeps a subsequence. */
  lemma {:induction false} SubsequencePrefix<T>(xs: seq<T>, p: seq<T>, ys: seq<T>)
    requires Subsequence(xs, ys)
    ensures Subsequence(xs, p + ys)
    decreases |p|
  {
    if p == [] {
      assert p + ys == ys;
    } else {
      SubsequencePrefix(xs, p[1..], ys);
      assert (p + ys)[1..] == p[1..] + ys;
    }
  }

  /** Adding elements at the end keeps a subsequence. */
  lemma {:induction false} SubsequenceSuffix<T>(xs: seq<T>, ys: seq<T>, q: seq<T>)
    requires Subsequence(xs, ys)
    ensures Subsequence(xs, ys + q)
    decreases |ys|
  {
    if xs != [] {
      assert (ys + q)[0] == ys[0] && (ys + q)[1..] == ys[1..] + q;
      if ys[0] == xs[0] && Subsequence(xs[1..], ys[1..]) {
        SubsequenceSuffix(xs[1..], ys[1..], q);
      } else {
        SubsequenceSuffix(xs, ys[1..], q);
      }
    }
  }

  /** `name.charAt(0) == '_'`: the empty name's first character is the empty string. */
  predicate StartsWithUnderscore(name: string)
  {
    |name| > 0 && name[0] == '_'
  }

  /** An element followed by a subsequence of a later part is a subsequence from that element on. */
  lemma SubsequenceCons<T>(x: T, xs: seq<T>, ys: seq<T>, k: nat, m: nat)
    requires k < m <= |ys| && ys[k] == x && Subsequence(xs, ys[m..])
    ensures Subsequence([x] + xs, ys[k..])
  {
    SubsequencePrefix(xs, ys[k + 1..m], ys[m..]);
    assert ys[k + 1..m] + ys[m..] == ys[k + 1..] == ys[k..][1..];
    assert ([x] + xs)[1..] == xs;
  }
}
