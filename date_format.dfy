/** The anchored pattern `ColumnMatchDateFormat` builds from a date format such
    as "YYYY-mm-dd": every maximal run of `Y`/`m`/`d` stands for that many
    digits, every other maximal run for itself. The pattern is a list of
    pieces, matched in full with `Matches`. */
module DateFormat {

  predicate IsDateChar(c: char)
  {
    c == 'Y' || c == 'm' || c == 'd'
  }

  /** `\d` taken as the ASCII digits. */
  predicate IsDigit(c: char)
  {
    '0' <= c <= '9'
  }

  /** A maximal run of the format: date characters (`date`) or separator characters. */
  datatype Run = Run(date: bool, text: string)

  /** One piece of the generated pattern: `\d{n}`, or an escaped literal. */
  datatype Piece = Digits(n: nat) | Literal(text: string)

  /** The length of the longest prefix of `s` whose characters are all of one kind. */
  function PrefixRun(s: string, date: bool): (n: nat)
    ensures n <= |s|
    ensures forall i :: 0 <= i < n ==> IsDateChar(s[i]) == date
    ensures n < |s| ==> IsDateChar(s[n]) != date
  {
    if |s| == 0 || IsDateChar(s[0]) != date then 0 else 1 + PrefixRun(s[1..], date)
  }

  /** The format split into its maximal runs, left to right. */
  function Runs(fmt: string): seq<Run>
    decreases |fmt|
  {
    if |fmt| == 0 then []
    else
      var d := IsDateChar(fmt[0]);
      var n := PrefixRun(fmt, d);
      [Run(d, fmt[..n])] + Runs(fmt[n..])
  }

  function Flatten(runs: seq<Run>): string
  {
    if |runs| == 0 then "" else runs[0].text + Flatten(runs[1..])
  }

  /** Each run is non-empty and of one kind, and neighbouring runs differ in kind. */
  ghost predicate MaximalRuns(runs: seq<Run>)
  {
    && (forall k :: 0 <= k < |runs| ==> |runs[k].text| > 0)
    && (forall k, i :: 0 <= k < |runs| && 0 <= i < |runs[k].text| ==> IsDateChar(runs[k].text[i]) == runs[k].date)
    && (forall k :: 0 <= k < |runs| - 1 ==> runs[k].date != runs[k + 1].date)
  }

  /** `Runs` cuts the format into maximal runs: they spell the format, and the
      first run has the kind of the format's first character. */
  lemma RunsPartition(fmt: string)
    ensures Flatten(Runs(fmt)) == fmt
    ensures MaximalRuns(Runs(fmt))
    ensures |fmt| > 0 ==> |Runs(fmt)| > 0 && Runs(fmt)[0].date == IsDateChar(fmt[0])
  {
    RunsSpell(fmt);
    RunsMaximal(fmt);
  }

  lemma {:induction false} RunsSpell(fmt: string)
    ensures Flatten(Runs(fmt)) == fmt
    decreases |fmt|
  {
    if |fmt| > 0 {
      var n := PrefixRun(fmt, IsDateChar(fmt[0]));
      RunsSpell(fmt[n..]);
      assert Runs(fmt)[1..] == Runs(fmt[n..]);
      assert fmt[..n] + fmt[n..] == fmt;
    }
  }

  lemma {:induction false} RunsMaximal(fmt: string)
    ensures MaximalRuns(Runs(fmt))
    ensures |fmt| > 0 ==> |Runs(fmt)| > 0 && Runs(fmt)[0].date == IsDateChar(fmt[0])
    decreases |fmt|
  {
    if |fmt| > 0 {
      var d := IsDateChar(fmt[0]);
      var n := PrefixRun(fmt, d);
      var rest := fmt[n..];
      RunsMaximal(rest);
      var rs := Runs(fmt);
      var tail := Runs(rest);
      assert rs == [Run(d, fmt[..n])] + tail;
      assert forall k :: 0 < k < |rs| ==> rs[k] == tail[k - 1];
      assert |tail| > 0 ==> tail[0].date != d;
    }
  }

  /** `re.findall(r"[Ymd]+", fmt)`, as the lengths of the matches. */
  function DateLengths(runs: seq<Run>): seq<nat>
  {
    if |runs| == 0 then [] else (if runs[0].date then [|runs[0].text|] else []) + DateLengths(runs[1..])
  }

  /** `re.findall(r"[^Ymd]+", fmt)`. */
  function SepTexts(runs: seq<Run>): seq<string>
  {
    if |runs| == 0 then [] else (if runs[0].date then [] else [runs[0].text]) + SepTexts(runs[1..])
  }

  /** The pieces the loop emits for date runs `ds` and separators `ss`: date run
      `i` as digits, then separator `i` when there is one. */
  function Interleave(ds: seq<nat>, ss: seq<string>): seq<Piece>
  {
    if |ds| == 0 then []
    else [Digits(ds[0])] + (if |ss| > 0 then [Literal(ss[0])] else [])
         + Interleave(ds[1..], if |ss| > 0 then ss[1..] else [])
  }

  function Drop(ss: seq<string>, i: nat): seq<string>
  {
    if i <= |ss| then ss[i..] else []
  }

  /** The pattern as the source builds it. */
  function AsWrittenPattern(fmt: string): seq<Piece>
  {
    Interleave(DateLengths(Runs(fmt)), SepTexts(Runs(fmt)))
  }

  /** What one round of the loop appends: date run `i`, then separator `i` if any. */
  function Emitted(ds: seq<nat>, ss: seq<string>, i: nat): seq<Piece>
    requires i < |ds|
  {
    [Digits(ds[i])] + (if i < |ss| then [Literal(ss[i])] else [])
  }

  lemma InterleaveStep(parts: seq<Piece>, ds: seq<nat>, ss: seq<string>, i: nat, whole: seq<Piece>)
    requires i < |ds|
    requires parts + Interleave(ds[i..], Drop(ss, i)) == whole
    ensures (parts + Emitted(ds, ss, i)) + Interleave(ds[i + 1..], Drop(ss, i + 1)) == whole
  {
    assert ds[i..][1..] == ds[i + 1..];
    if i < |ss| {
      assert Drop(ss, i)[1..] == Drop(ss, i + 1);
    }
    assert Interleave(ds[i..], Drop(ss, i)) == Emitted(ds, ss, i) + Interleave(ds[i + 1..], Drop(ss, i + 1));
  }

  /** The pattern-building loop of `ColumnMatchDateFormat.__call__`, over the
      date runs and separators the two `re.findall` calls return. */
  method BuildPattern(fmt: string) returns (parts: seq<Piece>)
    ensures parts == AsWrittenPattern(fmt)
  {
    parts := EmitPieces(DateLengths(Runs(fmt)), SepTexts(Runs(fmt)));
  }

  method EmitPieces(datePatterns: seq<nat>, separators: seq<string>) returns (parts: seq<Piece>)
    ensures parts == Interleave(datePatterns, separators)
  {
    parts := [];
    var i := 0;
    while i < |datePatterns|
      invariant 0 <= i <= |datePatterns|
      invariant parts == EmitUpTo(datePatterns, separators, i)
    {
      var round := [Digits(datePatterns[i])];
      if i < |separators| {
        round := round + [Literal(separators[i])];
      }
      assert round == Emitted(datePatterns, separators, i);
      parts := parts + round;
      i := i + 1;
    }
    EmitUpToAll(datePatterns, separators);
  }

  /** What the first `i` rounds of the loop have emitted. */
  function EmitUpTo(ds: seq<nat>, ss: seq<string>, i: nat): seq<Piece>
    requires i <= |ds|
  {
    if i == 0 then [] else EmitUpTo(ds, ss, i - 1) + Emitted(ds, ss, i - 1)
  }

  /** After `i` rounds, what is left to emit is the interleaving of the rest. */
  lemma {:induction false} EmitUpToInterleave(ds: seq<nat>, ss: seq<string>, i: nat)
    requires i <= |ds|
    ensures EmitUpTo(ds, ss, i) + Interleave(ds[i..], Drop(ss, i)) == Interleave(ds, ss)
    decreases i
  {
    if i == 0 {
      assert ds[0..] == ds;
      assert Drop(ss, 0) == ss;
    } else {
      EmitUpToInterleave(ds, ss, i - 1);
      InterleaveStep(EmitUpTo(ds, ss, i - 1), ds, ss, i - 1, Interleave(ds, ss));
    }
  }

  /** All rounds together emit the interleaving. */
  lemma EmitUpToAll(ds: seq<nat>, ss: seq<string>)
    ensures EmitUpTo(ds, ss, |ds|) == Interleave(ds, ss)
  {
    EmitUpToInterleave(ds, ss, |ds|);
    assert ds[|ds|..] == [];
  }

  function PieceOf(r: Run): Piece
  {
    if r.date then Digits(|r.text|) else Literal(r.text)
  }

  function PatternOf(runs: seq<Run>): (ps: seq<Piece>)
    ensures |ps| == |runs|
    ensures forall k :: 0 <= k < |runs| ==> ps[k] == PieceOf(runs[k])
  {
    if |runs| == 0 then [] else [PieceOf(runs[0])] + PatternOf(runs[1..])
  }

  /** The pattern the rule evidently intends: every run in format order. */
  function CorrectPattern(fmt: string): seq<Piece>
  {
    PatternOf(Runs(fmt))
  }

  predicate AllDigits(s: string)
  {
    forall i :: 0 <= i < |s| ==> IsDigit(s[i])
  }

  /** `^pieces$` matches all of `s`. Every piece has a fixed width, so matching
      left to right is exact. */
  predicate Matches(ps: seq<Piece>, s: string)
    decreases |ps|
  {
    if |ps| == 0 then |s| == 0
    else match ps[0]
      case Digits(n) => n <= |s| && AllDigits(s[..n]) && Matches(ps[1..], s[n..])
      case Literal(t) => |t| <= |s| && s[..|t|] == t && Matches(ps[1..], s[|t|..])
  }

  /** The reference reading of a format: `s` has the format's length, a digit
      wherever the format has `Y`, `m` or `d`, and the format's own character
      everywhere else. */
  predicate Conforms(fmt: string, s: string)
  {
    |s| == |fmt| && forall i :: 0 <= i < |fmt| ==> if IsDateChar(fmt[i]) then IsDigit(s[i]) else s[i] == fmt[i]
  }

  lemma ConformsSplit(fmt: string, s: string, n: nat)
    requires n <= |fmt|
    ensures Conforms(fmt, s) <==> n <= |s| && Conforms(fmt[..n], s[..n]) && Conforms(fmt[n..], s[n..])
  {
    if n <= |s| && Conforms(fmt[..n], s[..n]) && Conforms(fmt[n..], s[n..]) {
      forall i | 0 <= i < |fmt| ensures if IsDateChar(fmt[i]) then IsDigit(s[i]) else s[i] == fmt[i] {
        if i < n {
          assert fmt[..n][i] == fmt[i] && s[..n][i] == s[i];
        } else {
          assert fmt[n..][i - n] == fmt[i] && s[n..][i - n] == s[i];
        }
      }
    }
    if Conforms(fmt, s) {
      forall i | 0 <= i < n ensures if IsDateChar(fmt[..n][i]) then IsDigit(s[..n][i]) else s[..n][i] == fmt[..n][i] {
        assert fmt[..n][i] == fmt[i] && s[..n][i] == s[i];
      }
      forall i | 0 <= i < |fmt| - n
        ensures if IsDateChar(fmt[n..][i]) then IsDigit(s[n..][i]) else s[n..][i] == fmt[n..][i]
      {
        assert fmt[n..][i] == fmt[i + n] && s[n..][i] == s[i + n];
      }
    }
  }

  /** The intended pattern accepts exactly the strings that conform to the format. */
  lemma {:induction false} CorrectPatternMatches(fmt: string, s: string)
    ensures Matches(CorrectPattern(fmt), s) <==> Conforms(fmt, s)
    decreases |fmt|
  {
    if |fmt| == 0 {
    } else {
      var d := IsDateChar(fmt[0]);
      var n := PrefixRun(fmt, d);
      var head, rest := fmt[..n], fmt[n..];
      var ps := CorrectPattern(fmt);
      assert Runs(fmt) == [Run(d, head)] + Runs(rest);
      assert Runs(fmt)[1..] == Runs(rest);
      assert ps[1..] == CorrectPattern(rest);
      assert ps[0] == PieceOf(Run(d, head));
      ConformsSplit(fmt, s, n);
      if n <= |s| {
        CorrectPatternMatches(rest, s[n..]);
        assert |head| == n;
        if d {
          assert AllDigits(s[..n]) <==> Conforms(head, s[..n]) by {
            assert forall i :: 0 <= i < n ==> IsDateChar(head[i]);
          }
        } else {
          assert s[..n] == head <==> Conforms(head, s[..n]) by {
            assert forall i :: 0 <= i < n ==> !IsDateChar(head[i]);
            if Conforms(head, s[..n]) {
              assert forall i :: 0 <= i < n ==> s[..n][i] == head[i];
            }
          }
        }
      }
    }
  }

  ghost predicate DateFirst(runs: seq<Run>)
  {
    |runs| == 0 || runs[0].date
  }

  lemma MaximalRunsSuffix(runs: seq<Run>, m: nat)
    requires MaximalRuns(runs) && m <= |runs|
    ensures MaximalRuns(runs[m..])
  {
    var rest := runs[m..];
    forall k | 0 <= k < |rest| ensures rest[k] == runs[k + m] {
    }
  }

  lemma {:induction false} InterleaveOfDateFirst(runs: seq<Run>)
    requires MaximalRuns(runs) && DateFirst(runs)
    ensures Interleave(DateLengths(runs), SepTexts(runs)) == PatternOf(runs)
    decreases |runs|
  {
    if |runs| == 1 {
      assert runs[1..] == [];
      assert DateLengths(runs) == [|runs[0].text|];
      assert SepTexts(runs) == [];
    } else if |runs| > 1 {
      var rest := runs[2..];
      var d, sep := runs[0], runs[1];
      assert runs[1..][1..] == rest;
      assert d.date && !sep.date;
      MaximalRunsSuffix(runs, 2);
      assert DateFirst(rest) by {
        if |rest| > 0 {
          assert rest[0] == runs[2];
        }
      }
      InterleaveOfDateFirst(rest);
      assert DateLengths(runs[1..]) == DateLengths(rest);
      assert DateLengths(runs) == [|d.text|] + DateLengths(rest);
      assert SepTexts(runs[1..]) == [sep.text] + SepTexts(rest);
      assert SepTexts(runs) == [sep.text] + SepTexts(rest);
      assert PatternOf(runs[1..]) == [PieceOf(sep)] + PatternOf(rest);
      assert PatternOf(runs) == [PieceOf(d), PieceOf(sep)] + PatternOf(rest);
      var ds, ss := DateLengths(runs), SepTexts(runs);
      assert ds[1..] == DateLengths(rest) && ss[1..] == SepTexts(rest);
    }
  }

  /** When the format is empty or starts with `Y`, `m` or `d`, the source's
      pattern is the intended one. */
  lemma AsWrittenIsCorrectWhenDateFirst(fmt: string)
    requires |fmt| == 0 || IsDateChar(fmt[0])
    ensures AsWrittenPattern(fmt) == CorrectPattern(fmt)
  {
    RunsPartition(fmt);
    InterleaveOfDateFirst(Runs(fmt));
  }

  lemma RunsOfSlashYear()
    ensures Runs("/YYYY") == [Run(false, "/"), Run(true, "YYYY")]
  {
    assert "/YYYY"[1..] == "YYYY" && "/YYYY"[..1] == "/";
    assert PrefixRun("YYYY", false) == 0;
    assert PrefixRun("/YYYY", false) == 1;
    assert "YYYY"[1..] == "YYY" && "YYY"[1..] == "YY" && "YY"[1..] == "Y" && "Y"[1..] == "";
    assert PrefixRun("YYYY", true) == 4;
    assert "YYYY"[4..] == "" && "YYYY"[..4] == "YYYY";
    assert Runs("YYYY") == [Run(true, "YYYY")];
  }

  /** A leading separator is emitted after the first date run: the format
      "/YYYY" yields `^\d{4}/$`, which rejects the conforming "/2024" and
      accepts "2024/". */
  lemma LeadingSeparatorCounterexample()
    ensures AsWrittenPattern("/YYYY") == [Digits(4), Literal("/")]
    ensures Conforms("/YYYY", "/2024") && !Matches(AsWrittenPattern("/YYYY"), "/2024")
    ensures !Conforms("/YYYY", "2024/") && Matches(AsWrittenPattern("/YYYY"), "2024/")
  {
    SlashYearPattern();
    SlashYearRejects();
    SlashYearAccepts();
  }

  /** A format without `Y`, `m` or `d` has no date run, so the loop emits
      nothing and the pattern is `^$`: only the empty string matches, while a
      conforming string is the format itself. */
  lemma NoDateLetters(fmt: string, s: string)
    requires |fmt| > 0 && forall i :: 0 <= i < |fmt| ==> !IsDateChar(fmt[i])
    ensures AsWrittenPattern(fmt) == []
    ensures Matches(AsWrittenPattern(fmt), s) <==> s == ""
    ensures Conforms(fmt, fmt) && !Matches(AsWrittenPattern(fmt), fmt)
  {
    assert PrefixRun(fmt, false) == |fmt|;
    assert fmt[..|fmt|] == fmt && fmt[|fmt|..] == "";
    assert Runs(fmt) == [Run(false, fmt)];
    assert DateLengths([Run(false, fmt)]) == [] by {
      assert [Run(false, fmt)][1..] == [];
    }
  }

  lemma SlashYearPattern()
    ensures AsWrittenPattern("/YYYY") == [Digits(4), Literal("/")]
  {
    RunsOfSlashYear();
    var runs := [Run(false, "/"), Run(true, "YYYY")];
    assert DateLengths(runs) == [4] by {
      assert runs[1..] == [Run(true, "YYYY")];
    }
    assert SepTexts(runs) == ["/"] by {
      assert runs[1..] == [Run(true, "YYYY")];
    }
  }

  /** The conforming "/2024" fails the as-written pattern. */
  lemma SlashYearRejects()
    ensures Conforms("/YYYY", "/2024") && !Matches([Digits(4), Literal("/")], "/2024")
  {
    assert !AllDigits("/2024"[..4]) by {
      assert "/2024"[..4][0] == '/';
    }
  }

  /** The non-conforming "2024/" passes the as-written pattern. */
  lemma SlashYearAccepts()
    ensures !Conforms("/YYYY", "2024/") && Matches([Digits(4), Literal("/")], "2024/")
  {
    var p := [Digits(4), Literal("/")];
    assert "2024/"[..4] == "2024" && "2024/"[4..] == "/";
    assert p[1..] == [Literal("/")];
    assert Matches(p[1..], "/") by {
      assert "/"[..1] == "/" && "/"[1..] == "";
    }
    assert !Conforms("/YYYY", "2024/") by {
      assert "2024/"[0] != '/';
    }
  }
}
