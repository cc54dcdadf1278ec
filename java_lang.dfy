/** The parts of the Java platform the server's parser relies on: the 32-bit
    `int`, the regular-expression class `\s`, `String.split("\\s+")` with its
    default limit of zero, and `Integer.parseInt` in radix ten. */
module JavaLang {
  import opened Wrappers

  /** Java's `int`: arithmetic on this type is checked for overflow. */
  newtype int32 = x: int | -0x8000_0000 <= x < 0x8000_0000

  const MinInt: int := -0x8000_0000
  const MaxInt: int := 0x7fff_ffff

  predicate InInt32(x: int) { MinInt <= x <= MaxInt }

  // ---------------------------------------------------------------------------
  // Whitespace: the default meaning of `\s` in java.util.regex, [ \t\n\x0B\f\r]

  predicate IsSpace(c: char) {
    c == ' ' || c == '\t' || c == '\n' || c == '\r' || c as int == 0x0B || c as int == 0x0C
  }

  /** Every character is whitespace (true of the empty string). */
  predicate Blank(s: string) { forall i :: 0 <= i < |s| ==> IsSpace(s[i]) }

  /** No character is whitespace (true of the empty string). */
  predicate Solid(s: string) { forall i :: 0 <= i < |s| ==> !IsSpace(s[i]) }

  /** The raw result of splitting s around each maximal run of whitespace,
      before trailing empty strings are removed: the text before the first run,
      between consecutive runs, and after the last run, so that a leading run
      yields an empty first piece and a trailing run an empty last piece.
      Defined one character at a time: a non-whitespace character extends the
      first piece, a whitespace character that starts a run opens a new one,
      and one followed by more whitespace belongs to the same run. */
  function Pieces(s: string): (ps: seq<string>)
    ensures |ps| >= 1
  {
    if s == [] then [""]
    else
      var ps := Pieces(s[1..]);
      if !IsSpace(s[0]) then [[s[0]] + ps[0]] + ps[1..]
      else if |s| > 1 && IsSpace(s[1]) then ps
      else [""] + ps
  }

  /** Removes the empty strings at the end of a list, as `split` does when its
      limit is zero. */
  function DropTrailingEmpty(ts: seq<string>): (r: seq<string>)
    ensures |r| <= |ts| && r == ts[..|r|]
    ensures r != [] ==> r[|r| - 1] != ""
    ensures forall i :: |r| <= i < |ts| ==> ts[i] == ""
  {
    if ts != [] && ts[|ts| - 1] == "" then
      var r := DropTrailingEmpty(ts[..|ts| - 1]);
      assert forall i :: |r| <= i < |ts| - 1 ==> ts[..|ts| - 1][i] == ts[i];
      r
    else ts
  }

  /** `s.split("\\s+")`. When no whitespace occurs the string itself is the only
      token, with no trimming (so "" gives [""]); otherwise the pieces around the
      runs, with trailing empty strings removed. */
  function Split(s: string): seq<string>
  {
    if Solid(s) then [s] else DropTrailingEmpty(Pieces(s))
  }

  // The whitespace-free characters of a string, and the concatenation of a list.

  function Strip(s: string): string
  {
    if s == [] then [] else (if IsSpace(s[0]) then [] else [s[0]]) + Strip(s[1..])
  }

  function Concat(ts: seq<string>): string
  {
    if ts == [] then [] else Concat(ts[..|ts| - 1]) + ts[|ts| - 1]
  }

  /** Tokens with gap i between token i and token i + 1. */
  function Interleave(ts: seq<string>, gaps: seq<string>): string
    requires |ts| >= 1 && |gaps| == |ts| - 1
  {
    if |ts| == 1 then ts[0] else ts[0] + gaps[0] + Interleave(ts[1..], gaps[1..])
  }

  lemma {:induction false} ConcatCons(t: string, ts: seq<string>)
    ensures Concat([t] + ts) == t + Concat(ts)
    decreases |ts|
  {
    if ts != [] {
      assert ([t] + ts)[..|ts|] == [t] + ts[..|ts| - 1];
      ConcatCons(t, ts[..|ts| - 1]);
    }
  }

  lemma {:induction false} ConcatDropTrailing(ts: seq<string>)
    ensures Concat(DropTrailingEmpty(ts)) == Concat(ts)
    decreases |ts|
  {
    if ts != [] && ts[|ts| - 1] == "" {
      ConcatDropTrailing(ts[..|ts| - 1]);
    }
  }

  lemma {:induction false} ConcatEmpty(ts: seq<string>, i: nat)
    requires i < |ts| && Concat(ts) == []
    ensures ts[i] == ""
    decreases |ts|
  {
    if i < |ts| - 1 {
      ConcatEmpty(ts[..|ts| - 1], i);
    }
  }

  lemma {:induction false} StripHas(s: string, j: nat)
    requires j < |s| && !IsSpace(s[j])
    ensures Strip(s) != []
  {
    if j > 0 {
      StripHas(s[1..], j - 1);
    }
  }

  lemma {:induction false} StripBlank(s: string)
    requires Blank(s)
    ensures Strip(s) == []
  {
    if s != [] {
      StripBlank(s[1..]);
    }
  }

  /** The pieces are whitespace-free. */
  lemma {:induction false} PiecesSolid(s: string)
    ensures forall i :: 0 <= i < |Pieces(s)| ==> Solid(Pieces(s)[i])
  {
    if s != [] {
      PiecesSolid(s[1..]);
    }
  }

  /** The pieces strictly between the first and the last are non-empty, and
      the first is empty exactly when s is empty or starts with whitespace. */
  lemma {:induction false} PiecesShape(s: string)
    ensures forall i :: 0 < i < |Pieces(s)| - 1 ==> Pieces(s)[i] != ""
    ensures Pieces(s)[0] == "" <==> s == [] || IsSpace(s[0])
  {
    if s != [] {
      PiecesShape(s[1..]);
    }
  }

  /** Together the pieces hold every non-whitespace character of s, in order. */
  lemma {:induction false} PiecesConcat(s: string)
    ensures Concat(Pieces(s)) == Strip(s)
  {
    if s != [] {
      var rest := s[1..];
      var p := Pieces(rest);
      PiecesConcat(rest);
      assert p == [p[0]] + p[1..];
      ConcatCons(p[0], p[1..]);
      if !IsSpace(s[0]) {
        ConcatCons([s[0]] + p[0], p[1..]);
      } else if |s| > 1 && IsSpace(s[1]) {
      } else {
        ConcatCons("", p);
      }
    }
  }

  /** Facts about the pieces: all whitespace-free, the ones strictly inside
      are non-empty, the first is empty exactly when s is empty or starts with
      whitespace, and together they hold every non-whitespace character of s
      in order. */
  lemma PiecesFacts(s: string)
    ensures forall i :: 0 <= i < |Pieces(s)| ==> Solid(Pieces(s)[i])
    ensures forall i :: 0 < i < |Pieces(s)| - 1 ==> Pieces(s)[i] != ""
    ensures Pieces(s)[0] == "" <==> s == [] || IsSpace(s[0])
    ensures Concat(Pieces(s)) == Strip(s)
  {
    PiecesSolid(s);
    PiecesShape(s);
    PiecesConcat(s);
  }

  /** SplitTokens when s holds whitespace: the pieces, trailing empties
      dropped. */
  lemma SplitPieces(s: string)
    ensures var r := DropTrailingEmpty(Pieces(s));
      && (forall i :: 0 <= i < |r| ==> Solid(r[i]))
      && (forall i :: 0 < i < |r| ==> r[i] != "")
      && Concat(r) == Strip(s)
  {
    PiecesFacts(s);
    ConcatDropTrailing(Pieces(s));
    var ps := Pieces(s);
    var r := DropTrailingEmpty(ps);
    assert forall i :: 0 <= i < |r| ==> r[i] == ps[i];
  }

  /** What `split("\\s+")` yields: whitespace-free tokens, only the first of
      which may be empty, together holding every non-whitespace character of s
      in order. */
  lemma SplitTokens(s: string)
    ensures forall i :: 0 <= i < |Split(s)| ==> Solid(Split(s)[i])
    ensures forall i :: 0 < i < |Split(s)| ==> Split(s)[i] != ""
    ensures Concat(Split(s)) == Strip(s)
  {
    if Solid(s) {
      assert Concat([s]) == Concat([]) + s;
      SolidStrip(s);
    } else {
      SplitPieces(s);
    }
  }

  /** The edge cases of `split("\\s+")`: "" yields [""], a non-empty
      all-whitespace string yields no token at all, and a string that starts
      with whitespace but is not all whitespace yields an empty first token
      followed by at least one more. */
  lemma SplitEdges(s: string)
    ensures s == "" ==> Split(s) == [""]
    ensures s != "" && Blank(s) ==> Split(s) == []
    ensures s != "" && IsSpace(s[0]) && !Blank(s) ==> |Split(s)| >= 2 && Split(s)[0] == ""
  {
    if s != "" && IsSpace(s[0]) {
      SplitTokens(s);
      PiecesFacts(s);
      var ps := Pieces(s);
      var r := DropTrailingEmpty(ps);
      assert Split(s) == r;
      if Blank(s) {
        StripBlank(s);
        if r != [] {
          ConcatEmpty(r, |r| - 1);
        }
      } else {
        var j :| 0 <= j < |s| && !IsSpace(s[j]);
        StripHas(s, j);
        assert r != [];
        assert r[0] == ps[0] == "";
      }
    }
  }

  lemma {:induction false} SolidStrip(s: string)
    requires Solid(s)
    ensures Strip(s) == s
  {
    if s != [] {
      SolidStrip(s[1..]);
    }
  }

  // ---------------------------------------------------------------------------
  // Round trip: splitting tokens joined by whitespace gives the tokens back.

  predicate Token(t: string) { t != "" && Solid(t) }

  lemma {:induction false} PiecesSolidPrefix(t: string, u: string)
    requires Solid(t)
    ensures Pieces(t + u) == [t + Pieces(u)[0]] + Pieces(u)[1..]
  {
    if t != [] {
      var p := Pieces(u);
      assert (t + u)[1..] == t[1..] + u;
      PiecesSolidPrefix(t[1..], u);
      var q := Pieces(t[1..] + u);
      assert q[0] == t[1..] + p[0] && q[1..] == p[1..];
      assert !IsSpace((t + u)[0]);
      assert Pieces(t + u) == [[t[0]] + q[0]] + q[1..];
      assert [t[0]] + (t[1..] + p[0]) == t + p[0];
    } else {
      var p := Pieces(u);
      assert t + u == u && t + p[0] == p[0];
      assert p == [p[0]] + p[1..];
    }
  }

  lemma {:induction false} PiecesBlankPrefix(w: string, v: string)
    requires w != "" && Blank(w) && (v == "" || !IsSpace(v[0]))
    ensures Pieces(w + v) == [""] + Pieces(v)
  {
    assert (w + v)[1..] == w[1..] + v;
    if |w| > 1 {
      PiecesBlankPrefix(w[1..], v);
    }
  }

  /** Non-empty, whitespace-free tokens. */
  predicate Tokens(ts: seq<string>) { forall i :: 0 <= i < |ts| ==> Token(ts[i]) }

  /** Non-empty runs of whitespace, each of any length and mix. */
  predicate Gaps(gaps: seq<string>) { forall i :: 0 <= i < |gaps| ==> gaps[i] != "" && Blank(gaps[i]) }

  lemma {:induction false} PiecesInterleave(ts: seq<string>, gaps: seq<string>, tail: string)
    requires |ts| >= 1 && |gaps| == |ts| - 1 && Tokens(ts) && Gaps(gaps) && Blank(tail)
    ensures Pieces(Interleave(ts, gaps) + tail) == ts + (if tail == "" then [] else [""])
    decreases |ts|
  {
    var t := ts[0];
    if |ts| == 1 {
      assert Interleave(ts, gaps) == t;
      PiecesSolidPrefix(t, tail);
      assert Pieces("") == [""];
      if tail != "" {
        PiecesBlankPrefix(tail, "");
        assert tail + "" == tail;
        assert Pieces(tail) == ["", ""];
      }
      assert t + "" == t;
    } else {
      var g := gaps[0];
      assert Tokens(ts[1..]) && Gaps(gaps[1..]) by {
        assert forall i :: 0 <= i < |ts| - 1 ==> ts[1..][i] == ts[i + 1];
        assert forall i :: 0 <= i < |gaps| - 1 ==> gaps[1..][i] == gaps[i + 1];
      }
      var rest := Interleave(ts[1..], gaps[1..]) + tail;
      assert Interleave(ts, gaps) + tail == t + (g + rest);
      InterleaveHead(ts[1..], gaps[1..]);
      assert rest[0] == ts[1][0];
      PiecesSolidPrefix(t, g + rest);
      PiecesBlankPrefix(g, rest);
      PiecesInterleave(ts[1..], gaps[1..], tail);
      var q := Pieces(g + rest);
      assert q[0] == "" && q[1..] == Pieces(rest);
      assert t + q[0] == t;
      assert ts == [t] + ts[1..];
    }
  }

  /** `split("\\s+")` gives back tokens separated by runs of whitespace (each
      run of any length and mix); any trailing whitespace is dropped, and
      leading whitespace adds one empty token at the front. */
  lemma SplitInterleave(ts: seq<string>, gaps: seq<string>, lead: string, tail: string)
    requires |ts| >= 1 && |gaps| == |ts| - 1 && Tokens(ts) && Gaps(gaps)
    requires Blank(lead) && Blank(tail)
    ensures Split(lead + Interleave(ts, gaps) + tail) == (if lead == "" then [] else [""]) + ts
  {
    var body := Interleave(ts, gaps) + tail;
    assert lead + Interleave(ts, gaps) + tail == lead + body;
    PiecesInterleaveTrimmed(ts, gaps, tail);
    if lead == "" {
      assert lead + body == body;
      SplitBody(body, ts);
    } else {
      SplitLead(lead, body, ts, tail == "");
    }
  }

  lemma SplitBody(body: string, ts: seq<string>)
    requires body != "" && DropTrailingEmpty(Pieces(body)) == ts
    ensures Split(body) == ts
  {
    SplitNonEmpty(body);
  }

  lemma PiecesInterleaveTrimmed(ts: seq<string>, gaps: seq<string>, tail: string)
    requires |ts| >= 1 && |gaps| == |ts| - 1 && Tokens(ts) && Gaps(gaps) && Blank(tail)
    ensures Interleave(ts, gaps) + tail != "" && !IsSpace((Interleave(ts, gaps) + tail)[0])
    ensures Pieces(Interleave(ts, gaps) + tail) == ts + (if tail == "" then [] else [""])
    ensures DropTrailingEmpty(Pieces(Interleave(ts, gaps) + tail)) == ts
  {
    InterleaveHead(ts, gaps);
    PiecesInterleave(ts, gaps, tail);
    DropEmptyTail(ts, tail == "");
  }

  lemma SplitLead(lead: string, body: string, ts: seq<string>, bare: bool)
    requires lead != "" && Blank(lead) && body != "" && !IsSpace(body[0])
    requires ts != [] && ts[|ts| - 1] != ""
    requires Pieces(body) == ts + (if bare then [] else [""])
    ensures Split(lead + body) == [""] + ts
  {
    PiecesBlankPrefix(lead, body);
    DropEmptyTail([""] + ts, bare);
    assert [""] + Pieces(body) == ([""] + ts) + (if bare then [] else [""]);
    SplitNonEmpty(lead + body);
  }

  /** Interleave on two and on three tokens. */
  lemma Interleave2(a: string, b: string, g: string)
    ensures Interleave([a, b], [g]) == a + g + b
  {
    assert [a, b][1..] == [b];
    assert [g][1..] == [];
  }

  lemma Interleave3(a: string, b: string, c: string, g1: string, g2: string)
    ensures Interleave([a, b, c], [g1, g2]) == a + g1 + b + g2 + c
  {
    assert [a, b, c][1..] == [b, c];
    assert [g1, g2][1..] == [g2];
    Interleave2(b, c, g2);
  }

  lemma InterleaveHead(ts: seq<string>, gaps: seq<string>)
    requires |ts| >= 1 && |gaps| == |ts| - 1 && ts[0] != ""
    ensures Interleave(ts, gaps) != "" && Interleave(ts, gaps)[0] == ts[0][0]
  {
  }

  lemma DropEmptyTail(ts: seq<string>, bare: bool)
    requires ts != [] && ts[|ts| - 1] != ""
    ensures DropTrailingEmpty(ts + (if bare then [] else [""])) == ts
  {
    if !bare {
      assert (ts + [""])[..|ts|] == ts;
    } else {
      assert ts + [] == ts;
    }
  }

  /** For a non-empty string the untrimmed single-token case agrees with the
      trimmed pieces. */
  lemma SplitNonEmpty(s: string)
    requires s != ""
    ensures Split(s) == DropTrailingEmpty(Pieces(s))
  {
    if Solid(s) {
      PiecesSolidPrefix(s, "");
      assert s + "" == s;
      assert Pieces("") == [""];
    }
  }

  // ---------------------------------------------------------------------------
  // Integer.parseInt(s), radix ten, ASCII digits only

  predicate IsDigit(c: char) { '0' <= c <= '9' }

  predicate AllDigits(s: string) { forall i :: 0 <= i < |s| ==> IsDigit(s[i]) }

  /** The value of a run of decimal digits, most significant first. */
  function DigitsValue(ds: string): nat
    requires AllDigits(ds)
  {
    if ds == [] then 0
    else DigitsValue(ds[..|ds| - 1]) * 10 + (ds[|ds| - 1] as int - '0' as int)
  }

  /** An optional '-' or '+' followed by at least one digit, whose value lies
      in the 32-bit range; anything else throws NumberFormatException. */
  function ParseInt(s: string): (r: Option<int32>)
    ensures r.Some? ==> |s| >= 1 && AllDigits(s[1..]) && (IsDigit(s[0]) || ((s[0] == '-' || s[0] == '+') && |s| >= 2))
  {
    if |s| == 0 then None
    else
      var digits := if s[0] == '-' || s[0] == '+' then s[1..] else s;
      if |digits| == 0 || !AllDigits(digits) then None
      else
        var v: int := if s[0] == '-' then -(DigitsValue(digits) as int) else DigitsValue(digits);
        if InInt32(v) then Some(v as int32) else None
  }

  function DigitChar(d: nat): char
    requires d < 10
  {
    ('0' as int + d) as char
  }

  /** Decimal text of a natural number, without leading zeros. */
  function ShowNat(n: nat): string
  {
    if n < 10 then [DigitChar(n)] else ShowNat(n / 10) + [DigitChar(n % 10)]
  }

  /** Decimal text of an integer, as Integer.toString writes it. */
  function Show(v: int): string
  {
    if v < 0 then "-" + ShowNat(-v) else ShowNat(v)
  }

  lemma {:induction false} ShowNatValue(n: nat)
    ensures |ShowNat(n)| >= 1 && AllDigits(ShowNat(n))
    ensures DigitsValue(ShowNat(n)) == n
  {
    if n >= 10 {
      ShowNatValue(n / 10);
      var s := ShowNat(n);
      assert s[..|s| - 1] == ShowNat(n / 10);
    }
  }

  /** Integer.toString's text is a token: non-empty and whitespace-free. */
  lemma ShowToken(v: int)
    ensures Token(Show(v))
    ensures Show(v)[0] == '-' || IsDigit(Show(v)[0])
  {
    ShowNatValue(if v < 0 then -v else v);
  }

  /** parseInt reads back the decimal text of every integer it can represent,
      and rejects the text of every integer outside the 32-bit range. */
  lemma ParseIntShow(v: int)
    ensures ParseInt(Show(v)) == if InInt32(v) then Some(v as int32) else None
  {
    if v < 0 {
      ParseIntShowNegative(v);
    } else {
      ParseIntShowNatural(v);
    }
  }

  lemma ParseIntShowNegative(v: int)
    requires v < 0
    ensures ParseInt(Show(v)) == if InInt32(v) then Some(v as int32) else None
  {
    ShowNatValue(-v);
    assert Show(v)[1..] == ShowNat(-v);
  }

  lemma ParseIntShowNatural(v: nat)
    ensures ParseInt(Show(v)) == if InInt32(v) then Some(v as int32) else None
  {
    ShowNatValue(v);
    assert Show(v)[0] != '-' && Show(v)[0] != '+';
  }

  /** Conversely, every optional sign followed by ASCII digits is accepted,
      leading zeros and "-0" included, with the signed decimal value, as long
      as that value is in the 32-bit range. */
  lemma ParseIntDigits(sign: string, ds: string)
    requires sign == "" || sign == "+" || sign == "-"
    requires ds != "" && AllDigits(ds)
    ensures var v := if sign == "-" then -(DigitsValue(ds) as int) else DigitsValue(ds) as int;
      ParseInt(sign + ds) == if InInt32(v) then Some(v as int32) else None
  {
    var s := sign + ds;
    if sign == "" {
      assert s == ds;
      assert IsDigit(s[0]);
    } else {
      assert s[0] == sign[0] && s[1..] == ds;
    }
  }
}
