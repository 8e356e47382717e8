/**
 * `_fit_text` (src/main.py): shorten a line of text one character at a time,
 * appending an ellipsis, until it fits a column. The renderer's text measure
 * (`draw.textlength` with a given font) is an arbitrary function `textWidth`.
 */
module TextFit {
  const Ellipsis: string := "..."

  /** What the shortening loop returns when it starts from `trimmed`: the
      first candidate `trimmed[..k] + "..."`, for `k` counting down from
      `|trimmed| - 1`, that fits, or the bare ellipsis when none does. */
  function Shorten(textWidth: string -> int, trimmed: string, maxWidth: int): string
    decreases |trimmed|
  {
    if trimmed == [] then Ellipsis
    else
      var shorter := trimmed[..|trimmed| - 1];
      if textWidth(shorter + Ellipsis) <= maxWidth then shorter + Ellipsis
      else Shorten(textWidth, shorter, maxWidth)
  }

  /** The line `_fit_text` returns for `text` in a column `maxWidth` wide. */
  function Fitted(textWidth: string -> int, text: string, maxWidth: int): string
  {
    if textWidth(text) <= maxWidth then text else Shorten(textWidth, text, maxWidth)
  }

  /** The candidate that keeps the first `k` characters. */
  function Candidate(text: string, k: nat): string
    requires k <= |text|
  {
    text[..k] + Ellipsis
  }

  /** `_fit_text` itself, with its shortening loop. */
  method FitText(textWidth: string -> int, text: string, maxWidth: int) returns (r: string)
    ensures r == Fitted(textWidth, text, maxWidth)
  {
    if textWidth(text) <= maxWidth {
      return text;
    }
    var trimmed := text;
    while trimmed != []
      invariant Shorten(textWidth, trimmed, maxWidth) == Shorten(textWidth, text, maxWidth)
      decreases |trimmed|
    {
      trimmed := trimmed[..|trimmed| - 1];
      var candidate := trimmed + Ellipsis;
      if textWidth(candidate) <= maxWidth {
        return candidate;
      }
    }
    return Ellipsis;
  }

  /** The shortening loop keeps the LONGEST prefix whose candidate fits, and
      falls back to the bare ellipsis exactly when no candidate fits. */
  lemma {:induction false} ShortenIsLongestFit(textWidth: string -> int, t: string, maxWidth: int)
    ensures var r := Shorten(textWidth, t, maxWidth);
      || (exists k :: 0 <= k < |t| && r == Candidate(t, k) && textWidth(r) <= maxWidth
                     && forall j :: k < j < |t| ==> textWidth(Candidate(t, j)) > maxWidth)
      || (r == Ellipsis && forall j :: 0 <= j < |t| ==> textWidth(Candidate(t, j)) > maxWidth)
    decreases |t|
  {
    if t != [] {
      var shorter := t[..|t| - 1];
      assert Candidate(t, |t| - 1) == shorter + Ellipsis;
      if textWidth(shorter + Ellipsis) > maxWidth {
        ShortenIsLongestFit(textWidth, shorter, maxWidth);
        forall j | 0 <= j < |shorter|
          ensures Candidate(shorter, j) == Candidate(t, j)
        {
          assert shorter[..j] == t[..j];
        }
      }
    }
  }

  /** The properties `_fit_text` promises its callers. */
  lemma FittedSpec(textWidth: string -> int, text: string, maxWidth: int)
    ensures var r := Fitted(textWidth, text, maxWidth);
      // a line that fits is returned unchanged
      && (textWidth(text) <= maxWidth ==> r == text)
      // otherwise: a proper prefix followed by the ellipsis ...
      && (textWidth(text) > maxWidth ==>
            exists k :: 0 <= k && (k < |text| || k == 0) && k <= |text| && r == Candidate(text, k))
      // ... which fits, unless it is the bare ellipsis fallback
      && (r != Ellipsis ==> textWidth(r) <= maxWidth)
      // so a line that does not fit comes back unchanged only when it is "..." itself
      && (textWidth(text) > maxWidth && r == text ==> text == Ellipsis)
  {
    var r := Fitted(textWidth, text, maxWidth);
    if textWidth(text) > maxWidth {
      ShortenIsLongestFit(textWidth, text, maxWidth);
      if r == Ellipsis {
        assert r == Candidate(text, 0);
      }
    }
  }

  /** The bare ellipsis is not guaranteed to fit: with one column unit per
      character, "hello" in a 2-unit column comes back as a 3-unit "...". */
  lemma EllipsisMayOverflow()
    ensures var w := (s: string) => |s|;
      Fitted(w, "hello", 2) == Ellipsis && |Ellipsis| > 2
  {
    var w := (s: string) => |s|;
    assert Shorten(w, "", 2) == Ellipsis;
    assert Shorten(w, "h", 2) == Ellipsis;
    assert Shorten(w, "he", 2) == Ellipsis;
    assert Shorten(w, "hel", 2) == Ellipsis;
    assert "hell"[..3] == "hel";
    assert Shorten(w, "hell", 2) == Ellipsis;
    assert "hello"[..4] == "hell";
    assert Shorten(w, "hello", 2) == Ellipsis;
  }
}
