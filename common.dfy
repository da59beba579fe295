/** Small helpers shared by every module: an optional value, a result with an
    error, and the handful of string operations the validation engine uses
    (joining, ASCII lower-casing, decimal rendering of integers). */
module Common {

  datatype Option<+T> = None | Some(value: T)

  datatype Result<+T, +E> = Ok(value: T) | Err(error: E)

  /** `sep.join(parts)`: the first part leads, and two parts are written with
      one separator between them. */
  function Join(parts: seq<string>, sep: string): (r: string)
    ensures |parts| == 0 ==> r == ""
    ensures |parts| == 1 ==> r == parts[0]
    ensures |parts| == 2 ==> r == parts[0] + sep + parts[1]
    ensures |parts| > 0 ==> parts[0] <= r
  {
    if |parts| == 0 then ""
    else if |parts| == 1 then parts[0]
    else parts[0] + sep + Join(parts[1..], sep)
  }

  /** Joining one more part appends the separator and that part. */
  lemma {:induction false} JoinAppend(parts: seq<string>, x: string, sep: string)
    requires |parts| > 0
    ensures Join(parts + [x], sep) == Join(parts, sep) + sep + x
    decreases |parts|
  {
    if |parts| > 1 {
      assert (parts + [x])[1..] == parts[1..] + [x];
      JoinAppend(parts[1..], x, sep);
    }
  }

  function LowerChar(c: char): (r: char)
  {
    if 'A' <= c <= 'Z' then (c as int + 32) as char else c
  }

  /** `str.lower()` restricted to ASCII letters. */
  function Lower(s: string): (r: string)
    ensures |r| == |s|
    ensures forall i :: 0 <= i < |s| ==> r[i] == LowerChar(s[i])
  {
    if |s| == 0 then "" else [LowerChar(s[0])] + Lower(s[1..])
  }

  /** Two strings that differ at most in the case of their ASCII letters. */
  predicate SameUpToCase(s: string, t: string)
  {
    |s| == |t| && forall i :: 0 <= i < |s| ==> LowerChar(s[i]) == LowerChar(t[i])
  }

  /** `s.lower() == t.lower()` holds exactly when the two differ only in letter case. */
  lemma LowerEqualIff(s: string, t: string)
    ensures Lower(s) == Lower(t) <==> SameUpToCase(s, t)
  {
    if SameUpToCase(s, t) {
      assert forall i :: 0 <= i < |s| ==> Lower(s)[i] == Lower(t)[i];
    }
    if Lower(s) == Lower(t) {
      forall i | 0 <= i < |s| ensures LowerChar(s[i]) == LowerChar(t[i]) {
        assert Lower(s)[i] == Lower(t)[i];
      }
    }
  }

  /** Lower-casing twice is lower-casing once. */
  lemma LowerIdempotent(s: string)
    ensures Lower(Lower(s)) == Lower(s)
  {
  }

  function DigitChar(d: nat): (c: char)
    requires d < 10
  {
    "0123456789"[d]
  }

  function NatToString(n: nat): (r: string)
    ensures |r| > 0
    ensures forall i :: 0 <= i < |r| ==> '0' <= r[i] <= '9'
    decreases n
  {
    if n < 10 then [DigitChar(n)] else NatToString(n / 10) + [DigitChar(n % 10)]
  }

  /** `str(i)` for a Python integer. */
  function IntToString(i: int): (r: string)
    ensures |r| > 0
  {
    if i < 0 then "-" + NatToString(-i) else NatToString(i)
  }

  /** `repr` of a string without quotes inside it. */
  function PyStrRepr(s: string): string
  {
    "'" + s + "'"
  }

  /** A fail message that opens by naming one column between quotes. */
  predicate NamesColumn(m: string, column: string)
  {
    "The column '" + column + "'" <= m
  }

  function QuoteAll(names: seq<string>): (r: seq<string>)
    ensures |r| == |names|
    ensures forall i :: 0 <= i < |names| ==> r[i] == PyStrRepr(names[i])
  {
    if |names| == 0 then [] else [PyStrRepr(names[0])] + QuoteAll(names[1..])
  }

  /** `str(names)` for a list of strings, as an f-string renders it: the quoted
      names between brackets, the first one right after "[". */
  function PyStrList(names: seq<string>): (r: string)
    ensures "[" <= r && r[|r| - 1] == ']'
    ensures |names| > 0 ==> "[" + PyStrRepr(names[0]) <= r
  {
    var j := Join(QuoteAll(names), ", ");
    PrefixAfter("[", if |names| > 0 then PyStrRepr(names[0]) else "", j + "]");
    "[" + j + "]"
  }

  /** A prefix of `j` stays a prefix after `p`. */
  lemma PrefixAfter(p: string, a: string, j: string)
    requires a <= j
    ensures p + a <= p + j
  {
    assert (p + j)[..|p + a|] == p + j[..|a|];
  }

  /** `str(x)` for an optional integer parameter. */
  function PyOptInt(o: Option<int>): string
  {
    if o.None? then "None" else IntToString(o.value)
  }
}
