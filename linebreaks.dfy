/** Per-cell linebreak replacement: three successive substring replacements
    (CRLF, then LF, then CR), each with Python's left-to-right,
    non-overlapping str.replace. */
module Linebreaks {
  import opened Values

  const CRLF: string := "\r\n"
  const LF: string := "\n"
  const CR: string := "\r"

  /** Replaces every occurrence of pat in s by rep, scanning left to right and
      never re-examining replaced text. */
  function Replace(s: string, pat: string, rep: string): string
    requires |pat| > 0
    decreases |s|
  {
    if |s| < |pat| then s
    else if s[..|pat|] == pat then rep + Replace(s[|pat|..], pat, rep)
    else [s[0]] + Replace(s[1..], pat, rep)
  }

  /** The replacement chain the converter applies to a text cell. */
  function ReplaceLinebreaks(s: string, rep: string): string {
    Replace(Replace(Replace(s, CRLF, rep), LF, rep), CR, rep)
  }

  predicate NoLinebreak(s: string) {
    forall i :: 0 <= i < |s| ==> s[i] != '\r' && s[i] != '\n'
  }

  /** Reference meaning of linebreak replacement in one pass: every line break
      (a CRLF pair, a lone LF or a lone CR) becomes one copy of rep. */
  function OnePass(s: string, rep: string): string
    decreases |s|
  {
    if |s| == 0 then []
    else if |s| >= 2 && s[0] == '\r' && s[1] == '\n' then rep + OnePass(s[2..], rep)
    else if s[0] == '\n' || s[0] == '\r' then rep + OnePass(s[1..], rep)
    else [s[0]] + OnePass(s[1..], rep)
  }

  /** A single-character replacement distributes over concatenation. */
  lemma {:induction false} ReplaceCharConcat(a: string, b: string, c: char, rep: string)
    ensures Replace(a + b, [c], rep) == Replace(a, [c], rep) + Replace(b, [c], rep)
    decreases |a|
  {
    if |a| == 0 {
      assert a + b == b;
    } else {
      assert (a + b)[1..] == a[1..] + b;
      assert (a + b)[..1] == a[..1];
      ReplaceCharConcat(a[1..], b, c, rep);
    }
  }

  /** Replacing a character that does not occur changes nothing. */
  lemma {:induction false} ReplaceCharAbsent(s: string, c: char, rep: string)
    requires forall i :: 0 <= i < |s| ==> s[i] != c
    ensures Replace(s, [c], rep) == s
    decreases |s|
  {
    if |s| > 0 {
      assert s[..1] != [c] by { assert s[..1][0] == s[0]; }
      ReplaceCharAbsent(s[1..], c, rep);
    }
  }

  /** The LF and CR passes, which act on single characters. */
  function CharPasses(s: string, rep: string): string {
    Replace(Replace(s, LF, rep), CR, rep)
  }

  lemma CharPassesConcat(a: string, b: string, rep: string)
    ensures CharPasses(a + b, rep) == CharPasses(a, rep) + CharPasses(b, rep)
  {
    ReplaceCharConcat(a, b, '\n', rep);
    ReplaceCharConcat(Replace(a, LF, rep), Replace(b, LF, rep), '\r', rep);
  }

  lemma CharPassesKeepRep(rep: string)
    requires NoLinebreak(rep)
    ensures CharPasses(rep, rep) == rep
  {
    ReplaceCharAbsent(rep, '\n', rep);
    ReplaceCharAbsent(rep, '\r', rep);
  }

  lemma CharPassesSingle(c: char, rep: string)
    requires NoLinebreak(rep)
    ensures CharPasses([c], rep) == if c == '\n' || c == '\r' then rep else [c]
  {
    assert [c][1..] == [];
    assert Replace([], LF, rep) == [];
    assert Replace([], CR, rep) == [];
    if c == '\n' {
      assert Replace([c], LF, rep) == rep + [];
      assert rep + [] == rep;
      ReplaceCharAbsent(rep, '\r', rep);
    } else {
      assert Replace([c], LF, rep) == [c];
    }
  }

  /** When the replacement holds no line break itself, the three-pass chain
      the converter runs is exactly the one-pass reference: a CRLF pair gives
      one replacement, not two. */
  lemma {:induction false} ReplaceLinebreaksIsOnePass(s: string, rep: string)
    requires NoLinebreak(rep)
    ensures ReplaceLinebreaks(s, rep) == OnePass(s, rep)
    decreases |s|
  {
    if |s| == 0 {
    } else if |s| >= 2 && s[0] == '\r' && s[1] == '\n' {
      assert s[..2] == CRLF;
      var rest := Replace(s[2..], CRLF, rep);
      assert Replace(s, CRLF, rep) == rep + rest;
      CharPassesConcat(rep, rest, rep);
      CharPassesKeepRep(rep);
      ReplaceLinebreaksIsOnePass(s[2..], rep);
    } else {
      var rest := Replace(s[1..], CRLF, rep);
      if |s| == 1 {
        assert Replace(s, CRLF, rep) == s;
        assert s[1..] == [] && rest == [];
        assert Replace(s, CRLF, rep) == [s[0]] + rest;
      } else {
        assert s[..2] != CRLF by {
          assert s[..2][0] == s[0] && s[..2][1] == s[1];
        }
        assert Replace(s, CRLF, rep) == [s[0]] + rest;
      }
      CharPassesConcat([s[0]], rest, rep);
      CharPassesSingle(s[0], rep);
      ReplaceLinebreaksIsOnePass(s[1..], rep);
    }
  }

  lemma {:induction false} OnePassNoLinebreak(s: string, rep: string)
    requires NoLinebreak(rep)
    ensures NoLinebreak(OnePass(s, rep))
    decreases |s|
  {
    if |s| == 0 {
    } else if |s| >= 2 && s[0] == '\r' && s[1] == '\n' {
      OnePassNoLinebreak(s[2..], rep);
    } else {
      OnePassNoLinebreak(s[1..], rep);
    }
  }

  /** With a replacement free of line breaks, no CR or LF survives. */
  lemma ReplaceLinebreaksRemovesAll(s: string, rep: string)
    requires NoLinebreak(rep)
    ensures NoLinebreak(ReplaceLinebreaks(s, rep))
  {
    ReplaceLinebreaksIsOnePass(s, rep);
    OnePassNoLinebreak(s, rep);
  }

  /** The worked case: CRLF, LF and CR each become one space. */
  lemma ReplaceLinebreaksExample()
    ensures ReplaceLinebreaks("a\r\nb\nc\rd", " ") == "a b c d"
  {
    ReplaceLinebreaksIsOnePass("a\r\nb\nc\rd", " ");
    OnePassExample();
  }

  lemma OnePassExampleTail()
    ensures OnePass("c\rd", " ") == "c d"
  {
    assert "c\rd"[1..] == "\rd";
    assert "\rd"[1..] == "d";
    assert OnePass("d", " ") == "d";
    assert OnePass("\rd", " ") == " d";
  }

  lemma OnePassExample()
    ensures OnePass("a\r\nb\nc\rd", " ") == "a b c d"
  {
    OnePassExampleTail();
    assert "a\r\nb\nc\rd"[1..] == "\r\nb\nc\rd";
    assert "\r\nb\nc\rd"[2..] == "b\nc\rd";
    assert "b\nc\rd"[1..] == "\nc\rd";
    assert "\nc\rd"[1..] == "c\rd";
    assert OnePass("\nc\rd", " ") == " c d";
    assert OnePass("b\nc\rd", " ") == "b c d";
    assert OnePass("\r\nb\nc\rd", " ") == " b c d";
  }

  /** A replacement that itself holds a line break is substituted again by the
      later passes: the chain is not the one-pass reference in that case. */
  lemma ReplacementWithLinebreakIsRewritten()
    ensures ReplaceLinebreaks("\r\n", "\r\n") == "\r\n\r\n\n"
    ensures OnePass("\r\n", "\r\n") == "\r\n"
  {
    assert "\r\n"[..2] == CRLF;
    assert "\r\n"[2..] == [];
    assert Replace("\r\n", CRLF, "\r\n") == "\r\n";
    ReplaceCharConcat("\r", "\n", '\n', "\r\n");
    assert Replace("\r", LF, "\r\n") == "\r";
    assert Replace(LF, LF, "\r\n") == "\r\n";
    assert Replace("\r\n", LF, "\r\n") == "\r\r\n";
    assert "\r\r\n" == "\r" + "\r" + "\n";
    ReplaceCharConcat("\r" + "\r", "\n", '\r', "\r\n");
    ReplaceCharConcat("\r", "\r", '\r', "\r\n");
    assert Replace(CR, CR, "\r\n") == "\r\n";
    assert Replace(LF, CR, "\r\n") == "\n";
    assert OnePass("\r\n"[2..], "\r\n") == [];
  }

  /** The field transformation of one cell: only a text value is rewritten,
      and only when a replacement string is configured (an empty replacement
      counts as configured). */
  function TransformCell(v: Cell, replacement: Option<string>): (r: Cell)
    ensures replacement.None? || !v.Text? ==> r == v
    ensures r.Text? <==> v.Text?
    ensures replacement.Some? && v.Text? && NoLinebreak(replacement.value) ==>
              r == Text(OnePass(v.text, replacement.value)) && NoLinebreak(r.text)
  {
    if replacement.Some? && v.Text? then
      var r := Text(ReplaceLinebreaks(v.text, replacement.value));
      assert NoLinebreak(replacement.value) ==>
               r == Text(OnePass(v.text, replacement.value)) && NoLinebreak(r.text) by {
        if NoLinebreak(replacement.value) {
          ReplaceLinebreaksIsOnePass(v.text, replacement.value);
          OnePassNoLinebreak(v.text, replacement.value);
        }
      }
      r
    else v
  }
}
