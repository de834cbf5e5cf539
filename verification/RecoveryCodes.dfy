/** Formatting and normalising recovery codes. */
module RecoveryCodes {
  import opened Text

  const RECOVERY_CODE_COUNT := 10

  predicate IsBase32(s: string)
  {
    forall i :: 0 <= i < |s| ==> 'A' <= s[i] <= 'Z' || '2' <= s[i] <= '7'
  }

  /** unicode.IsSpace. */
  predicate IsSpace(c: char)
  {
    || c in {'\t', '\n', '\U{B}', '\U{C}', '\r', ' ', '\U{85}', '\U{A0}', '\U{1680}', '\U{2028}', '\U{2029}', '\U{202F}', '\U{205F}', '\U{3000}'}
    || '\U{2000}' <= c <= '\U{200A}'
  }

  predicate IsSeparator(c: char)
  {
    c == '-' || c == ' '
  }

  function TrimLeft(s: string): string
  {
    if s != "" && IsSpace(s[0]) then TrimLeft(s[1..]) else s
  }

  function TrimRight(s: string): string
  {
    if s != "" && IsSpace(s[|s| - 1]) then TrimRight(s[..|s| - 1]) else s
  }

  function Remove(s: string, c: char): string
  {
    if s == "" then "" else (if s[0] == c then "" else [s[0]]) + Remove(s[1..], c)
  }

  /** NormalizeRecoveryCode. */
  function Normalize(s: string): string
  {
    Upper(Remove(Remove(TrimRight(TrimLeft(s)), '-'), ' '))
  }

  /** Another way of typing `code`: its letters in either case, in order, with dashes and spaces
      anywhere. */
  predicate Spells(typed: string, code: string)
  {
    if typed == "" then code == ""
    else if IsSeparator(typed[0]) then Spells(typed[1..], code)
    else code != "" && UpperChar(typed[0]) == code[0] && Spells(typed[1..], code[1..])
  }

  lemma {:induction false} StrippedIffSpells(typed: string, code: string)
    ensures Upper(Remove(Remove(typed, '-'), ' ')) == code <==> Spells(typed, code)
  {
    if typed != "" {
      var rest := Upper(Remove(Remove(typed[1..], '-'), ' '));
      if typed[0] == '-' || typed[0] == ' ' {
        StrippedIffSpells(typed[1..], code);
        if typed[0] == '-' {
          assert Remove(typed, '-') == Remove(typed[1..], '-');
        } else {
          assert Remove(typed, '-') == [' '] + Remove(typed[1..], '-');
          assert Remove([' '] + Remove(typed[1..], '-'), ' ') == Remove(Remove(typed[1..], '-'), ' ') by {
            assert ([' '] + Remove(typed[1..], '-'))[1..] == Remove(typed[1..], '-');
          }
        }
      } else {
        var inner := Remove(typed[1..], '-');
        assert Remove(typed, '-') == [typed[0]] + inner;
        assert ([typed[0]] + inner)[1..] == inner;
        assert Remove(Remove(typed, '-'), ' ') == [typed[0]] + Remove(inner, ' ');
        assert ([typed[0]] + Remove(inner, ' '))[1..] == Remove(inner, ' ');
        assert Upper(Remove(Remove(typed, '-'), ' ')) == [UpperChar(typed[0])] + rest;
        if code != "" {
          StrippedIffSpells(typed[1..], code[1..]);
          assert code == [code[0]] + code[1..];
        }
      }
    }
  }

  /** A typed string matches a code exactly when, surrounding white space aside, it spells it. */
  lemma NormalizedIffSpells(typed: string, code: string)
    ensures Normalize(typed) == code <==> Spells(TrimRight(TrimLeft(typed)), code)
  {
    StrippedIffSpells(TrimRight(TrimLeft(typed)), code);
  }

  /** The first character of a spelling is a separator or a letter of the code. */
  lemma FirstIsLetterOrSeparator(typed: string, code: string)
    requires typed != "" && Spells(typed, code)
    ensures IsSeparator(typed[0]) || UpperChar(typed[0]) in code
  {
  }

  lemma {:induction false} TrimLeftSpells(typed: string, code: string)
    requires IsBase32(code) && Spells(typed, code)
    ensures Spells(TrimLeft(typed), code)
  {
    if typed != "" && IsSpace(typed[0]) {
      FirstIsLetterOrSeparator(typed, code);
      TrimLeftSpells(typed[1..], code);
    }
  }

  /** Dropping a trailing separator does not change what is spelled. */
  lemma {:induction false} DropLastSeparator(typed: string, code: string)
    requires typed != "" && IsSeparator(typed[|typed| - 1]) && Spells(typed, code)
    ensures Spells(typed[..|typed| - 1], code)
  {
    if |typed| > 1 {
      assert typed[1..][..|typed| - 2] == typed[..|typed| - 1][1..];
      if IsSeparator(typed[0]) {
        DropLastSeparator(typed[1..], code);
      } else {
        DropLastSeparator(typed[1..], code[1..]);
      }
    }
  }

  /** The last character of a spelling is a separator or a letter of the code. */
  lemma {:induction false} LastIsLetterOrSeparator(typed: string, code: string)
    requires typed != "" && Spells(typed, code)
    ensures IsSeparator(typed[|typed| - 1]) || UpperChar(typed[|typed| - 1]) in code
  {
    if IsSeparator(typed[0]) {
      if |typed| > 1 { LastIsLetterOrSeparator(typed[1..], code); }
    } else if |typed| > 1 {
      LastIsLetterOrSeparator(typed[1..], code[1..]);
    } else {
      assert code[0] in code;
    }
  }

  lemma {:induction false} TrimRightSpells(typed: string, code: string)
    requires IsBase32(code) && Spells(typed, code)
    ensures Spells(TrimRight(typed), code)
  {
    if typed != "" && IsSpace(typed[|typed| - 1]) {
      LastIsLetterOrSeparator(typed, code);
      DropLastSeparator(typed, code);
      TrimRightSpells(typed[..|typed| - 1], code);
    }
  }

  /** Every spelling of a base32 code normalises to the code. */
  lemma SpellingsNormalize(typed: string, code: string)
    requires IsBase32(code) && Spells(typed, code)
    ensures Normalize(typed) == code
  {
    TrimLeftSpells(typed, code);
    TrimRightSpells(TrimLeft(typed), code);
    NormalizedIffSpells(typed, code);
  }

  /** A dash before every fourth character but the first. */
  function Grouped(code: string): string
  {
    if code == "" then ""
    else
      var n := |code| - 1;
      Grouped(code[..n]) + (if n > 0 && n % 4 == 0 then "-" else "") + [code[n]]
  }

  /** The formatting loop of generateRecoveryCode. */
  method FormatCode(enc: string) returns (b: string)
    ensures b == Grouped(enc)
  {
    b := "";
    for i := 0 to |enc|
      invariant b == Grouped(enc[..i])
    {
      assert enc[..i + 1][..i] == enc[..i];
      if i > 0 && i % 4 == 0 {
        b := b + "-";
      }
      b := b + [enc[i]];
    }
    assert enc[..|enc|] == enc;
  }

  lemma {:induction false} SpellsAppend(typed: string, code: string, more: string, tail: string)
    requires Spells(typed, code) && Spells(more, tail)
    ensures Spells(typed + more, code + tail)
  {
    if typed == "" {
      assert typed + more == more && code + tail == tail;
    } else {
      assert (typed + more)[1..] == typed[1..] + more;
      if IsSeparator(typed[0]) {
        SpellsAppend(typed[1..], code, more, tail);
      } else {
        assert (code + tail)[1..] == code[1..] + tail;
        SpellsAppend(typed[1..], code[1..], more, tail);
      }
    }
  }

  /** The code as displayed spells the code. */
  lemma {:induction false} GroupedSpells(code: string)
    requires IsBase32(code)
    ensures Spells(Grouped(code), code)
  {
    if code != "" {
      var n := |code| - 1;
      GroupedSpells(code[..n]);
      assert code[n] in code;
      var more := (if n > 0 && n % 4 == 0 then "-" else "") + [code[n]];
      assert Spells([code[n]], [code[n]]);
      assert Spells(more, [code[n]]) by {
        if n > 0 && n % 4 == 0 { assert more[1..] == [code[n]]; }
      }
      SpellsAppend(Grouped(code[..n]), code[..n], more, [code[n]]);
      assert code[..n] + [code[n]] == code;
      assert Grouped(code) == Grouped(code[..n]) + more;
    }
  }

  /** Every fifth character is a dash, the others are the code's in order. */
  ghost predicate Shaped(shown: string, code: string)
  {
    && |shown| == |code| + (if code == "" then 0 else (|code| - 1) / 4)
    && forall i :: 0 <= i < |shown| ==> if i % 5 == 4 then shown[i] == '-' else i - i / 5 < |code| && shown[i] == code[i - i / 5]
  }

  lemma ShapedNext(shown: string, code: string, c: char)
    requires Shaped(shown, code)
    ensures Shaped(shown + (if |code| > 0 && |code| % 4 == 0 then "-" else "") + [c], code + [c])
  {
  }

  /** The displayed code: every fifth character is a dash, the others are the code's in order. */
  lemma {:induction false} GroupedShape(code: string)
    ensures Shaped(Grouped(code), code)
  {
    if code != "" {
      var n := |code| - 1;
      GroupedShape(code[..n]);
      ShapedNext(Grouped(code[..n]), code[..n], code[n]);
      assert code[..n] + [code[n]] == code;
    }
  }

  /** White space around what the user types does not matter. */
  lemma {:induction false} PaddingIgnored(before: string, typed: string, after: string)
    requires forall i :: 0 <= i < |before| ==> before[i] in {' ', '\t', '\r', '\n'}
    requires forall i :: 0 <= i < |after| ==> after[i] in {' ', '\t', '\r', '\n'}
    ensures Normalize(before + typed + after) == Normalize(typed)
  {
    TrimBefore(before, typed + after);
    assert before + (typed + after) == before + typed + after;
    TrimAround(typed, after);
  }

  lemma {:induction false} TrimBefore(before: string, s: string)
    requires forall i :: 0 <= i < |before| ==> IsSpace(before[i])
    ensures TrimLeft(before + s) == TrimLeft(s)
  {
    if before == "" {
      assert before + s == s;
    } else {
      assert (before + s)[1..] == before[1..] + s;
      TrimBefore(before[1..], s);
    }
  }

  lemma {:induction false} TrimAfter(s: string, after: string)
    requires forall i :: 0 <= i < |after| ==> IsSpace(after[i])
    ensures TrimRight(s + after) == TrimRight(s)
  {
    if after == "" {
      assert s + after == s;
    } else {
      var n := |after| - 1;
      assert (s + after)[..|s + after| - 1] == s + after[..n];
      TrimAfter(s, after[..n]);
    }
  }

  lemma {:induction false} TrimAround(s: string, after: string)
    requires forall i :: 0 <= i < |after| ==> IsSpace(after[i])
    ensures TrimRight(TrimLeft(s + after)) == TrimRight(TrimLeft(s))
  {
    if s == "" {
      assert s + after == after;
      TrimBefore(after, "");
      assert after + "" == after;
    } else if IsSpace(s[0]) {
      assert (s + after)[1..] == s[1..] + after;
      TrimAround(s[1..], after);
    } else {
      TrimAfter(s, after);
    }
  }
}
