/**
  The JavaScript string operations the faucet relies on, over `seq<char>`:
  `split` on a one-character separator, `substring` with one argument, and
  the decimal `toString` of an integer within JavaScript's safe range.
 */
module JsText {

  /** Index of the first `c` in `s`, or `|s|` when `s` holds none. */
  function IndexOf(s: string, c: char): (i: nat)
    ensures i <= |s|
    ensures i < |s| ==> s[i] == c
    ensures forall j :: 0 <= j < i ==> s[j] != c
    ensures i == |s| <==> c !in s
  {
    if s == [] then 0
    else if s[0] == c then 0
    else 1 + IndexOf(s[1..], c)
  }

  /** `s.split(sep)`: the separator-free segments of `s`, in order; never empty. */
  function Split(s: string, sep: char): (parts: seq<string>)
    ensures |parts| >= 1
    ensures forall k :: 0 <= k < |parts| ==> sep !in parts[k]
    decreases |s|
  {
    var i := IndexOf(s, sep);
    if i == |s| then [s]
    else
      assert forall j :: 0 <= j < i ==> s[..i][j] != sep;
      [s[..i]] + Split(s[i + 1..], sep)
  }

  /** The first segment is the text before the first separator; a second one exists exactly when `sep` occurs. */
  lemma SplitHead(s: string, sep: char)
    ensures Split(s, sep)[0] == s[..IndexOf(s, sep)]
    ensures |Split(s, sep)| >= 2 <==> sep in s
    ensures sep in s ==> Split(s, sep)[1..] == Split(s[IndexOf(s, sep) + 1..], sep)
  {
  }

  /** `parts.join(sep)`. */
  function Join(parts: seq<string>, sep: char): string
    requires |parts| >= 1
  {
    if |parts| == 1 then parts[0] else parts[0] + [sep] + Join(parts[1..], sep)
  }

  /** The first occurrence of `sep` in `a + [sep] + b` is the one after `a`. */
  lemma IndexOfAfter(a: string, sep: char, b: string)
    requires sep !in a
    ensures IndexOf(a + [sep] + b, sep) == |a|
  {
    var s := a + [sep] + b;
    assert forall j :: 0 <= j < |a| ==> s[j] == a[j];
    assert s[|a|] == sep;
  }

  /** Joining the segments of `s` gives back `s`. */
  lemma {:induction false} JoinSplit(s: string, sep: char)
    ensures Join(Split(s, sep), sep) == s
    decreases |s|
  {
    var i := IndexOf(s, sep);
    if i < |s| {
      var rest := s[i + 1..];
      SplitHead(s, sep);
      var restParts := Split(rest, sep);
      assert Split(s, sep) == [s[..i]] + restParts;
      JoinSplit(rest, sep);
      JoinAround(s, sep, i, restParts);
    }
  }

  /** `s` is its text before position `i`, the separator there, and the join of segments making up the rest. */
  lemma JoinAround(s: string, sep: char, i: nat, restParts: seq<string>)
    requires i < |s| && s[i] == sep && |restParts| >= 1 && Join(restParts, sep) == s[i + 1..]
    ensures Join([s[..i]] + restParts, sep) == s
  {
    JoinCons(s[..i], restParts, sep);
    assert s == s[..i] + [sep] + s[i + 1..];
  }


  /** A separator-free head followed by the separator splits off as the first segment. */
  lemma SplitCons(a: string, sep: char, t: string)
    requires sep !in a
    ensures Split(a + [sep] + t, sep) == [a] + Split(t, sep)
  {
    var s := a + [sep] + t;
    IndexOfAfter(a, sep, t);
    assert s[..|a|] == a && s[|a| + 1..] == t;
  }

  /** Joining `[p] + rest` puts `p` and one separator before the join of `rest`. */
  lemma JoinCons(p: string, rest: seq<string>, sep: char)
    requires |rest| >= 1
    ensures Join([p] + rest, sep) == p + [sep] + Join(rest, sep)
  {
    assert ([p] + rest)[1..] == rest;
  }

  /** Splitting a join of separator-free segments gives back the segments. */
  lemma {:induction false} SplitJoin(parts: seq<string>, sep: char)
    requires |parts| >= 1
    requires forall k :: 0 <= k < |parts| ==> sep !in parts[k]
    ensures Split(Join(parts, sep), sep) == parts
  {
    if |parts| == 1 {
      assert sep !in parts[0];
      assert Split(parts[0], sep) == [parts[0]];
    } else {
      var head := parts[0];
      var tail := parts[1..];
      assert parts == [head] + tail;
      assert sep !in head;
      forall k | 0 <= k < |tail|
        ensures sep !in tail[k]
      {
        assert tail[k] == parts[k + 1];
      }
      JoinCons(head, tail, sep);
      SplitCons(head, sep, Join(tail, sep));
      SplitJoin(tail, sep);
    }
  }


  /** `s.substring(start)`: the suffix from `start`, the index clamped to `0 .. |s|`. */
  function Substring(s: string, start: int): (r: string)
    ensures |r| <= |s| && r == s[|s| - |r|..]
    ensures start <= 0 ==> r == s
    ensures 0 <= start <= |s| ==> r == s[start..]
    ensures |s| <= start ==> r == ""
  {
    if start <= 0 then s else if start >= |s| then "" else s[start..]
  }

  predicate EndsWith(s: string, suffix: string) {
    |suffix| <= |s| && s[|s| - |suffix|..] == suffix
  }

  /** Comparing the last four characters with `t` (four characters long) is the same as asking for suffix `t`, short names included. */
  lemma LastFourIs(s: string, t: string)
    requires |t| == 4
    ensures Substring(s, |s| - 4) == t <==> EndsWith(s, t)
  {
    if |s| < 4 {
      assert Substring(s, |s| - 4) == s;
      assert |s| != |t|;
    }
  }

  predicate IsDigit(c: char) {
    '0' <= c <= '9'
  }

  function DigitChar(d: nat): (c: char)
    requires d < 10
    ensures IsDigit(c) && c as int - '0' as int == d
  {
    ('0' as int + d) as char
  }

  /** The decimal numeral of `n`, without leading zeros. */
  function DecimalString(n: nat): (s: string)
    ensures |s| >= 1
    ensures forall k :: 0 <= k < |s| ==> IsDigit(s[k])
    ensures s[0] == '0' ==> s == "0"
    decreases n
  {
    if n < 10 then [DigitChar(n)] else DecimalString(n / 10) + [DigitChar(n % 10)]
  }

  /** The number a string of digits denotes. */
  function DecimalValue(s: string): nat
    requires forall k :: 0 <= k < |s| ==> IsDigit(s[k])
  {
    if s == [] then 0
    else
      var last := s[|s| - 1];
      assert IsDigit(last);
      10 * DecimalValue(s[..|s| - 1]) + (last as int - '0' as int)
  }

  /** Reading back the numeral of `n` gives `n`. */
  lemma {:induction false} DecimalRoundTrip(n: nat)
    ensures DecimalValue(DecimalString(n)) == n
    decreases n
  {
    if n >= 10 {
      var s := DecimalString(n);
      assert s[..|s| - 1] == DecimalString(n / 10);
      DecimalRoundTrip(n / 10);
    }
  }

  /**
    `n.toString()` for an integer `n` that a JavaScript number holds exactly
    and prints without an exponent, that is `|n| <= 2^53 - 1`; beyond that
    the source's double prints other digits, and from `10^21` on an exponent.
   */
  function NumberToString(n: int): (s: string)
  {
    if n < 0 then "-" + DecimalString(-n) else DecimalString(n)
  }

  /** The integer denoted by an optionally signed decimal numeral. */
  function ParseNumber(s: string): (r: int)
    requires s != [] && (s[0] == '-' || IsDigit(s[0]))
    requires forall k :: 1 <= k < |s| ==> IsDigit(s[k])
  {
    if s[0] == '-' then -(DecimalValue(s[1..]) as int) else DecimalValue(s)
  }

  /** The decimal string of an integer reads back as that integer, and has no leading zero. */
  lemma NumberRoundTrip(n: int)
    ensures var s := NumberToString(n);
      && s != [] && (s[0] == '-' || IsDigit(s[0]))
      && (forall k :: 1 <= k < |s| ==> IsDigit(s[k]))
      && ParseNumber(s) == n
      && (s[0] == '-' <==> n < 0)
  {
    var s := NumberToString(n);
    if n < 0 {
      DecimalRoundTrip(-n);
      assert s[1..] == DecimalString(-n);
    } else {
      DecimalRoundTrip(n);
    }
  }
}
