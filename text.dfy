/** Strings as the clause builders produce and the database reads them:
    decimal numerals for placeholder indices, Array.prototype.join, the
    positional placeholders `$1`, `$2`, ... that appear in a statement, and
    JavaScript's relational order on strings. */
module Text {

  predicate IsDigit(c: char) { '0' <= c <= '9' }

  predicate AllDigits(s: string) { forall i :: 0 <= i < |s| ==> IsDigit(s[i]) }

  predicate NoDollar(s: string) { forall i :: 0 <= i < |s| ==> s[i] != '$' }

  function DigitValue(c: char): nat
  {
    if IsDigit(c) then c as int - '0' as int else 0
  }

  function DigitChar(d: nat): (c: char)
    requires d < 10
    ensures IsDigit(c) && DigitValue(c) == d
  {
    ('0' as int + d) as char
  }

  /** The decimal text of a non-negative number, as a template literal
      `${n}` renders it. */
  function NatToString(n: nat): (s: string)
    ensures |s| > 0 && AllDigits(s)
    decreases n
  {
    if n < 10 then [DigitChar(n)] else NatToString(n / 10) + [DigitChar(n % 10)]
  }

  /** The number a run of decimal digits denotes, as the database reads the
      index of a positional parameter. */
  function DigitsValue(s: string): nat
    decreases |s|
  {
    if s == [] then 0 else 10 * DigitsValue(s[..|s| - 1]) + DigitValue(s[|s| - 1])
  }

  lemma {:induction false} DigitsRoundTrip(n: nat)
    ensures DigitsValue(NatToString(n)) == n
    decreases n
  {
    var s := NatToString(n);
    if n >= 10 {
      assert s[..|s| - 1] == NatToString(n / 10);
      DigitsRoundTrip(n / 10);
    }
  }

  /** The positional parameter `$i`. */
  function Placeholder(i: nat): (s: string)
    ensures |s| > 1 && s[0] == '$' && AllDigits(s[1..])
  {
    "$" + NatToString(i)
  }

  /** Number of leading decimal digits of `s`. */
  function DigitRun(s: string): (k: nat)
    ensures k <= |s|
    ensures k < |s| ==> !IsDigit(s[k])
    decreases |s|
  {
    if s == [] || !IsDigit(s[0]) then 0 else 1 + DigitRun(s[1..])
  }

  /** The indices of the positional parameters that occur in `s`, in the
      order they occur: every `$` followed by at least one digit contributes
      the number its maximal run of digits denotes. */
  function Placeholders(s: string): seq<nat>
    decreases |s|
  {
    if s == [] then []
    else if s[0] != '$' then Placeholders(s[1..])
    else
      var k := DigitRun(s[1..]);
      if k == 0 then Placeholders(s[1..])
      else [DigitsValue(s[1..k + 1])] + Placeholders(s[k + 1..])
  }

  /** `[lo, lo + 1, ..., lo + n - 1]` */
  function Interval(lo: nat, n: nat): (r: seq<nat>)
    ensures |r| == n && forall i :: 0 <= i < n ==> r[i] == lo + i
  {
    seq(n, i requires 0 <= i < n => lo + i)
  }

  /** `[1, 2, ..., n]`: the placeholder indices of a statement with `n`
      parameters, each used once and in order. */
  function OneTo(n: nat): seq<nat> { Interval(1, n) }

  lemma OneToNext(n: nat)
    ensures OneTo(n) + [n + 1] == OneTo(n + 1)
  {
    var a := OneTo(n) + [n + 1];
    var b := OneTo(n + 1);
    assert forall i :: 0 <= i < |a| ==> a[i] == b[i];
  }

  /** A prefix with no `$` contributes no placeholder. */
  lemma {:induction false} PlaceholdersSkip(a: string, b: string)
    requires NoDollar(a)
    ensures Placeholders(a + b) == Placeholders(b)
    decreases |a|
  {
    if a != [] {
      assert (a + b)[0] == a[0] && (a + b)[1..] == a[1..] + b;
      assert a[0] != '$';
      PlaceholdersSkip(a[1..], b);
    } else {
      assert a + b == b;
    }
  }

  lemma NoDollarAppend(a: string, b: string)
    requires NoDollar(a) && NoDollar(b)
    ensures NoDollar(a + b)
  {
  }

  lemma NoDollarNoPlaceholders(a: string)
    requires NoDollar(a)
    ensures Placeholders(a) == []
  {
    PlaceholdersSkip(a, []);
    assert a + [] == a;
  }

  lemma {:induction false} DigitRunAppend(x: string, b: string)
    requires b == [] || !IsDigit(b[0])
    ensures DigitRun(x + b) == DigitRun(x)
    decreases |x|
  {
    if x == [] {
      assert x + b == b;
    } else if IsDigit(x[0]) {
      assert (x + b)[1..] == x[1..] + b;
      DigitRunAppend(x[1..], b);
    }
  }

  lemma AppendStepPlain(a: string, b: string)
    requires a != [] && a[0] != '$'
    ensures Placeholders(a + b) == Placeholders(a[1..] + b)
  {
    var s := a + b;
    assert s[0] == a[0] && s[1..] == a[1..] + b;
  }

  lemma AppendStepDollar(a: string, b: string, k: nat)
    requires a != [] && a[0] == '$' && 0 < k == DigitRun(a[1..])
    requires DigitRun(a[1..] + b) == k
    ensures Placeholders(a + b) == [DigitsValue(a[1..k + 1])] + Placeholders(a[k + 1..] + b)
  {
    var s := a + b;
    assert s[0] == '$' && s[1..] == a[1..] + b;
    assert s[1..k + 1] == a[1..k + 1];
    assert s[k + 1..] == a[k + 1..] + b;
  }

  lemma AppendStepBareDollar(a: string, b: string)
    requires a != [] && a[0] == '$' && DigitRun(a[1..]) == 0
    requires DigitRun(a[1..] + b) == 0
    ensures Placeholders(a + b) == Placeholders(a[1..] + b)
  {
    var s := a + b;
    assert s[0] == '$' && s[1..] == a[1..] + b;
  }

  /** Placeholders of a concatenation are those of its parts, provided the
      second part cannot extend a digit run that ends the first. */
  lemma {:induction false} PlaceholdersAppend(a: string, b: string)
    requires b == [] || !IsDigit(b[0])
    ensures Placeholders(a + b) == Placeholders(a) + Placeholders(b)
    decreases |a|
  {
    if a == [] {
      assert a + b == b;
    } else if a[0] != '$' {
      AppendStepPlain(a, b);
      PlaceholdersAppend(a[1..], b);
    } else {
      DigitRunAppend(a[1..], b);
      var k := DigitRun(a[1..]);
      if k == 0 {
        AppendStepBareDollar(a, b);
        PlaceholdersAppend(a[1..], b);
      } else {
        AppendStepDollar(a, b, k);
        PlaceholdersAppend(a[k + 1..], b);
      }
    }
  }

  lemma {:induction false} DigitRunAllDigits(d: string)
    requires AllDigits(d)
    ensures DigitRun(d) == |d|
    decreases |d|
  {
    if d != [] {
      assert AllDigits(d[1..]);
      DigitRunAllDigits(d[1..]);
    }
  }

  lemma PlaceholderIndex(i: nat)
    ensures Placeholders(Placeholder(i)) == [i]
  {
    var s := Placeholder(i);
    var d := NatToString(i);
    assert s[1..] == d;
    DigitRunAllDigits(d);
    assert s[1..|d| + 1] == d;
    assert s[|d| + 1..] == [];
    DigitsRoundTrip(i);
  }

  /** A `$`-free text followed by `$i` holds exactly the placeholder `i`. */
  lemma TextThenPlaceholder(a: string, i: nat)
    requires NoDollar(a)
    ensures Placeholders(a + Placeholder(i)) == [i]
  {
    PlaceholdersSkip(a, Placeholder(i));
    PlaceholderIndex(i);
  }

  /** `parts.join(sep)` */
  function Join(parts: seq<string>, sep: string): string
    decreases |parts|
  {
    if |parts| == 0 then ""
    else if |parts| == 1 then parts[0]
    else parts[0] + sep + Join(parts[1..], sep)
  }

  /** Joining one more part adds exactly one separator and that part. */
  lemma {:induction false} JoinAppend(parts: seq<string>, x: string, sep: string)
    requires |parts| > 0
    ensures Join(parts + [x], sep) == Join(parts, sep) + sep + x
    decreases |parts|
  {
    if |parts| > 1 {
      assert (parts + [x])[1..] == parts[1..] + [x];
      JoinAppend(parts[1..], x, sep);
    } else {
      assert (parts + [x])[1..] == [x];
    }
  }

  /** When the i-th part holds exactly the placeholder `start + i` and the
      separator holds none, the joined text holds the placeholders
      `start, start + 1, ...` once each, in order. */
  lemma {:induction false} JoinPlaceholders(parts: seq<string>, sep: string, start: nat)
    requires |sep| > 0 && !IsDigit(sep[0]) && NoDollar(sep)
    requires forall i :: 0 <= i < |parts| ==> Placeholders(parts[i]) == [start + i]
    ensures Placeholders(Join(parts, sep)) == Interval(start, |parts|)
    decreases |parts|
  {
    if |parts| == 0 {
    } else if |parts| == 1 {
      assert Placeholders(parts[0]) == [start];
    } else {
      var rest := Join(parts[1..], sep);
      assert parts[0] + sep + rest == parts[0] + (sep + rest);
      PlaceholdersAppend(parts[0], sep + rest);
      PlaceholdersSkip(sep, rest);
      assert forall i :: 0 <= i < |parts| - 1 ==> Placeholders(parts[1..][i]) == [start + 1 + i] by {
        forall i | 0 <= i < |parts| - 1 ensures Placeholders(parts[1..][i]) == [start + 1 + i] {
          assert parts[1..][i] == parts[i + 1];
        }
      }
      JoinPlaceholders(parts[1..], sep, start + 1);
      assert [start] + Interval(start + 1, |parts| - 1) == Interval(start, |parts|);
    }
  }

  function CountChar(s: string, c: char): nat
    decreases |s|
  {
    if s == [] then 0 else (if s[0] == c then 1 else 0) + CountChar(s[1..], c)
  }

  lemma {:induction false} CountCharAppend(a: string, b: string, c: char)
    ensures CountChar(a + b, c) == CountChar(a, c) + CountChar(b, c)
    decreases |a|
  {
    if a == [] {
      assert a + b == b;
    } else {
      assert (a + b)[1..] == a[1..] + b;
      CountCharAppend(a[1..], b, c);
    }
  }

  lemma {:induction false} CountCharAbsent(s: string, c: char)
    requires forall i :: 0 <= i < |s| ==> s[i] != c
    ensures CountChar(s, c) == 0
    decreases |s|
  {
    if s != [] { CountCharAbsent(s[1..], c); }
  }

  /** When no part contains `c`, the joined text holds `c` exactly as often
      as the `|parts| - 1` separators do. */
  lemma {:induction false} JoinCountChar(parts: seq<string>, sep: string, c: char)
    requires |parts| > 0
    requires forall i :: 0 <= i < |parts| ==> CountChar(parts[i], c) == 0
    ensures CountChar(Join(parts, sep), c) == (|parts| - 1) * CountChar(sep, c)
    decreases |parts|
  {
    if |parts| > 1 {
      var rest := Join(parts[1..], sep);
      CountCharAppend(parts[0] + sep, rest, c);
      CountCharAppend(parts[0], sep, c);
      assert forall i :: 0 <= i < |parts| - 1 ==> CountChar(parts[1..][i], c) == 0 by {
        forall i | 0 <= i < |parts| - 1 ensures CountChar(parts[1..][i], c) == 0 {
          assert parts[1..][i] == parts[i + 1];
        }
      }
      JoinCountChar(parts[1..], sep, c);
    }
  }

  /** JavaScript's `a < b` on strings: element-wise comparison of
      characters, a proper prefix being smaller. */
  predicate StrLess(a: string, b: string)
    decreases |a|
  {
    if a == [] then b != []
    else if b == [] then false
    else if a[0] != b[0] then a[0] < b[0]
    else StrLess(a[1..], b[1..])
  }

  lemma {:induction false} StrLessIrreflexive(a: string)
    ensures !StrLess(a, a)
    decreases |a|
  {
    if a != [] { StrLessIrreflexive(a[1..]); }
  }

  lemma {:induction false} StrLessTransitive(a: string, b: string, c: string)
    requires StrLess(a, b) && StrLess(b, c)
    ensures StrLess(a, c)
    decreases |a|
  {
    if a != [] && b != [] && c != [] && a[0] == b[0] && b[0] == c[0] {
      StrLessTransitive(a[1..], b[1..], c[1..]);
    }
  }

  lemma {:induction false} StrLessTotal(a: string, b: string)
    requires a != b
    ensures StrLess(a, b) || StrLess(b, a)
    decreases |a|
  {
    if a != [] && b != [] && a[0] == b[0] {
      StrLessTotal(a[1..], b[1..]);
    }
  }

  /** The order compares text, not magnitude: "10" sorts before "9". */
  lemma StrLessIsNotNumeric()
    ensures StrLess(NatToString(10), NatToString(9))
  {
    assert NatToString(10) == "10";
    assert NatToString(9) == "9";
  }
}
