/** Whitespace handling of parser-owned tokens. */
module AsciiText {
  predicate IsSpace(c: char) {
    c == ' ' || '\t' <= c <= '\r'
  }

  predicate Blank(text: string) {
    forall k :: 0 <= k < |text| ==> IsSpace(text[k])
  }

  function TrimLeft(text: string): (r: string)
    ensures |r| <= |text| && r == text[|text| - |r|..] && Blank(text[..|text| - |r|])
    ensures r != "" ==> !IsSpace(r[0])
  {
    if text == "" || !IsSpace(text[0]) then text else TrimLeft(text[1..])
  }

  function TrimRight(text: string): (r: string)
    ensures |r| <= |text| && r == text[..|r|] && Blank(text[|r|..])
    ensures r != "" ==> !IsSpace(r[|r| - 1])
  {
    if text == "" || !IsSpace(text[|text| - 1]) then text else TrimRight(text[..|text| - 1])
  }

  function Trim(text: string): string {
    TrimRight(TrimLeft(text))
  }

  lemma LeftIsBlank(text: string)
    ensures TrimLeft(text) == "" <==> Blank(text)
  {
    var left := TrimLeft(text);
    if left == "" {
      assert text[..|text|] == text;
    } else {
      assert left[0] == text[|text| - |left|];
    }
  }

  lemma RightIsBlank(text: string)
    ensures TrimRight(text) == "" <==> Blank(text)
  {
    var right := TrimRight(text);
    if right == "" {
      assert text[0..] == text;
    } else {
      assert right[|right| - 1] == text[|right| - 1];
    }
  }

  /** Nothing is left exactly of a blank text. */
  lemma BlankTrimsToNothing(text: string)
    ensures Trim(text) == "" <==> Blank(text)
  {
    var left := TrimLeft(text);
    LeftIsBlank(text);
    RightIsBlank(left);
    if left != "" {
      assert !Blank(left) by {
        assert !IsSpace(left[0]);
      }
    }
  }

  lemma SpaceIsCut(text: string)
    requires text != "" && IsSpace(text[0])
    ensures TrimLeft(text) == TrimLeft(text[1..])
  {
  }

  lemma {:induction false} LeftPadding(before: string, text: string)
    requires Blank(before)
    ensures TrimLeft(before + text) == TrimLeft(text)
  {
    if before == "" {
      assert before + text == text;
    } else {
      assert (before + text)[1..] == before[1..] + text;
      LeftPadding(before[1..], text);
    }
  }

  lemma {:induction false} RightPadding(text: string, after: string)
    requires Blank(after)
    ensures TrimRight(text + after) == TrimRight(text)
  {
    if after == "" {
      assert text + after == text;
    } else {
      assert (text + after)[..|text + after| - 1] == text + after[..|after| - 1];
      RightPadding(text, after[..|after| - 1]);
    }
  }

  lemma {:induction false} LeftOfMore(text: string, after: string)
    requires TrimLeft(text) != ""
    ensures TrimLeft(text + after) == TrimLeft(text) + after
  {
    var more := text + after;
    assert more[0] == text[0] && more[1..] == text[1..] + after;
    if IsSpace(text[0]) {
      LeftOfMore(text[1..], after);
      SpaceIsCut(more);
    }
  }

  lemma PaddedEnd(text: string, after: string)
    requires Blank(after)
    ensures Trim(text + after) == Trim(text)
  {
    if Blank(text) {
      assert Blank(text + after);
      BlankTrimsToNothing(text);
      BlankTrimsToNothing(text + after);
    } else {
      LeftIsBlank(text);
      LeftOfMore(text, after);
      RightPadding(TrimLeft(text), after);
    }
  }

  /** Whitespace around a token does not change what it is trimmed to. */
  lemma PaddingIsIgnored(before: string, text: string, after: string)
    requires Blank(before) && Blank(after)
    ensures Trim(before + (text + after)) == Trim(text)
  {
    LeftPadding(before, text + after);
    PaddedEnd(text, after);
  }
}
