/** The birth-date field of the profile screen: every edit is rewritten so
    that its digits are laid over the pattern `##/##/####`
    (ui/usuario/PerfilUsuarioFragment.kt, `setupDateFormatting`). */
module DateMask {
  import opened KotlinText

  const Mask: string := "##/##/####"

  /** Removes every character that is not an ASCII digit, keeping the digits
      in order. */
  function OnlyDigits(s: string): (d: string)
    ensures AllDigits(d) && |d| <= |s|
  {
    if s == [] then [] else (if IsDigit(s[0]) then [s[0]] else []) + OnlyDigits(s[1..])
  }

  lemma {:induction false} OnlyDigitsAppend(a: string, b: string)
    ensures OnlyDigits(a + b) == OnlyDigits(a) + OnlyDigits(b)
  {
    if a == [] {
      assert a + b == b;
    } else {
      assert (a + b)[0] == a[0] && (a + b)[1..] == a[1..] + b;
      OnlyDigitsAppend(a[1..], b);
    }
  }

  /** On one character: a digit is kept, anything else is dropped. With
      `OnlyDigitsAppend` this fixes `OnlyDigits` on every string. */
  lemma OnlyDigitsOfChar(c: char)
    ensures OnlyDigits([c]) == if IsDigit(c) then [c] else []
  {
  }

  /** A non-digit, wherever it stands, contributes nothing. */
  lemma OnlyDigitsSkipsNonDigit(a: string, c: char, b: string)
    requires !IsDigit(c)
    ensures OnlyDigits(a + [c] + b) == OnlyDigits(a + b)
  {
    OnlyDigitsAppend(a + [c], b);
    OnlyDigitsAppend(a, [c]);
    OnlyDigitsOfChar(c);
    OnlyDigitsAppend(a, b);
  }

  lemma {:induction false} OnlyDigitsOfDigits(d: string)
    requires AllDigits(d)
    ensures OnlyDigits(d) == d
  {
    if d != [] {
      OnlyDigitsOfDigits(d[1..]);
    }
  }

  /** At most eight digits laid over the mask; a `/` appears only when a digit
      follows it. */
  function Layout(d: string): (r: string)
    requires AllDigits(d) && |d| <= 8
    ensures |r| == |d| + (if |d| > 4 then 2 else if |d| > 2 then 1 else 0)
    ensures forall k :: 0 <= k < |r| ==> (r[k] == '/' <==> k == 2 || k == 5)
    ensures forall k :: 0 <= k < |r| ==> IsDigit(r[k]) || r[k] == '/'
  {
    if |d| <= 2 then d
    else if |d| <= 4 then d[..2] + "/" + d[2..]
    else d[..2] + "/" + d[2..4] + "/" + d[4..]
  }

  function Min(a: int, b: int): int {
    if a <= b then a else b
  }

  /** What the field holds after the watcher has rewritten the text `s`: the
      first eight digits of `s` laid over the mask, each `#` taken by a digit
      and each `/` kept only when a digit follows it. */
  function Masked(s: string): (r: string)
    ensures |r| <= |Mask|
    ensures forall k :: 0 <= k < |r| ==> (Mask[k] == '#' ==> IsDigit(r[k])) && (Mask[k] == '/' ==> r[k] == '/')
  {
    var d := OnlyDigits(s);
    Layout(d[..Min(|d|, 8)])
  }

  /** The number of `#` in `Mask[..k]`: how many digits have been placed once
      the loop has passed `k` mask characters. */
  function Slots(k: nat): nat {
    if k <= 2 then k else if k <= 5 then k - 1 else k - 2
  }

  /** Placing one more digit: a `/` goes in front of the third and fifth. */
  lemma LayoutAppend(d: string, i: nat)
    requires AllDigits(d) && i < |d| && i < 8
    ensures Layout(d[..i + 1]) == Layout(d[..i]) + (if i == 2 || i == 4 then "/" else "") + [d[i]]
  {
    var a, b := d[..i], d[..i + 1];
    assert b == a + [d[i]];
    if i < 2 {
    } else if i == 2 {
      assert b[..2] == a && b[2..] == [d[i]];
    } else if i == 3 {
      assert b[..2] == a[..2] && b[2..] == a[2..] + [d[i]];
    } else if i == 4 {
      assert b[..2] == a[..2] && b[2..4] == a[2..] && b[4..] == [d[i]];
    } else {
      assert b[..2] == a[..2] && b[2..4] == a[2..4] && b[4..] == a[4..] + [d[i]];
    }
  }

  /** The loop of `afterTextChanged`: walk the mask, copy a separator only
      while digits remain, stop when the digits run out. */
  method FormatDate(text: string) returns (formatted: string)
    ensures formatted == Masked(text)
  {
    var unmasked := OnlyDigits(text);
    formatted := "";
    var i := 0;
    for k := 0 to |Mask|
      invariant i == Slots(k) && i <= |unmasked|
      invariant formatted == Layout(unmasked[..i]) + (if k > 0 && Mask[k - 1] == '/' then "/" else "")
      invariant k > 0 && Mask[k - 1] == '/' ==> i < |unmasked|
    {
      var m := Mask[k];
      if m != '#' && |unmasked| > i {
        formatted := formatted + [m];
        continue;
      }
      if i >= |unmasked| {
        break;
      }
      LayoutAppend(unmasked, i);
      formatted := formatted + [unmasked[i]];
      i := i + 1;
    }
    assert unmasked[..i] == unmasked[..Min(|unmasked|, 8)];
  }

  /** The field's text watcher. Rewriting the text re-enters the watcher,
      which `isUpdating` turns into a no-op. */
  class BirthDateWatcher {
    var isUpdating: bool
    var text: string

    constructor (initial: string)
      ensures !isUpdating && text == initial
    {
      isUpdating := false;
      text := initial;
    }

    /** `afterTextChanged`. */
    method AfterTextChanged()
      modifies this
      decreases if isUpdating then 0 else 1
      ensures isUpdating == old(isUpdating)
      ensures text == if old(isUpdating) then old(text) else Masked(old(text))
    {
      if isUpdating {
        return;
      }
      isUpdating := true;
      var formatted := FormatDate(text);
      text := formatted;
      AfterTextChanged();
      isUpdating := false;
    }

    /** The user edits the field: the new text lands, then the watcher runs. */
    method Edit(newText: string)
      requires !isUpdating
      modifies this
      ensures !isUpdating && text == Masked(newText)
    {
      text := newText;
      AfterTextChanged();
    }
  }

  // ---------------------------------------------------------------------------
  // Properties of the mask
  // ---------------------------------------------------------------------------

  /** Removing the separators from a layout gives back its digits. */
  lemma LayoutDigits(e: string)
    requires AllDigits(e) && |e| <= 8
    ensures OnlyDigits(Layout(e)) == e
  {
    assert OnlyDigits("/") == [];
    if |e| <= 2 {
      OnlyDigitsOfDigits(e);
    } else if |e| <= 4 {
      var a, b := e[..2], e[2..];
      OnlyDigitsOfDigits(a);
      OnlyDigitsOfDigits(b);
      calc {
        OnlyDigits(a + "/" + b);
        { OnlyDigitsAppend(a + "/", b); }
        OnlyDigits(a + "/") + OnlyDigits(b);
        { OnlyDigitsAppend(a, "/"); }
        a + b;
        e;
      }
    } else {
      var a, b, c := e[..2], e[2..4], e[4..];
      OnlyDigitsOfDigits(a);
      OnlyDigitsOfDigits(b);
      OnlyDigitsOfDigits(c);
      calc {
        OnlyDigits(a + "/" + b + "/" + c);
        { OnlyDigitsAppend(a + "/" + b + "/", c); }
        OnlyDigits(a + "/" + b + "/") + c;
        { OnlyDigitsAppend(a + "/" + b, "/"); }
        OnlyDigits(a + "/" + b) + c;
        { OnlyDigitsAppend(a + "/", b); }
        OnlyDigits(a + "/") + b + c;
        { OnlyDigitsAppend(a, "/"); }
        a + b + c;
        e;
      }
    }
  }

  /** With the separators removed, the output is the first (at most eight)
      digits of the input, in order; everything else in the input is dropped. */
  lemma MaskedKeepsDigitPrefix(s: string)
    ensures OnlyDigits(Masked(s)) == OnlyDigits(s)[..Min(|OnlyDigits(s)|, 8)]
    ensures forall k :: 0 <= k < |Masked(s)| ==> IsDigit(Masked(s)[k]) || Masked(s)[k] == '/'
  {
    var d := OnlyDigits(s);
    LayoutDigits(d[..Min(|d|, 8)]);
  }

  /** The output holds at most eight digits and ten characters; a `/` stands
      exactly at positions 2 and 5 when the output reaches them, so it never
      ends in `/`. */
  lemma MaskedShape(s: string)
    ensures |Masked(s)| <= 10
    ensures forall k :: 0 <= k < |Masked(s)| ==> (Masked(s)[k] == '/' <==> k == 2 || k == 5)
    ensures Masked(s) == [] || Masked(s)[|Masked(s)| - 1] != '/'
  {
  }

  /** Digits past the eighth are discarded. */
  lemma MaskedIgnoresExtraDigits(s: string, t: string)
    requires |OnlyDigits(s)| >= 8
    ensures Masked(s + t) == Masked(s)
  {
    OnlyDigitsAppend(s, t);
    assert OnlyDigits(s + t)[..8] == OnlyDigits(s)[..8];
  }

  /** Masking the masked text changes nothing, so the re-entrant call that the
      rewrite triggers would not alter the field either. */
  lemma MaskedIdempotent(s: string)
    ensures Masked(Masked(s)) == Masked(s)
  {
    MaskedKeepsDigitPrefix(s);
    var d := OnlyDigits(s);
    var e := d[..Min(|d|, 8)];
    assert OnlyDigits(Masked(s)) == e;
    assert e[..Min(|e|, 8)] == e;
  }

  lemma MaskedExampleShort()
    ensures Masked("12") == "12"
  {
    var a := "12";
    OnlyDigitsOfDigits(a);
    assert a[..Min(|a|, 8)] == a;
  }

  lemma MaskedExampleOneSlash()
    ensures Masked("123") == "12/3"
  {
    var b := "123";
    OnlyDigitsOfDigits(b);
    assert b[..Min(|b|, 8)] == b;
    assert b[..2] == "12" && b[2..] == "3";
  }

  /** On at most eight digits the mask is the layout itself. */
  lemma MaskedOfDigits(d: string)
    requires AllDigits(d) && |d| <= 8
    ensures Masked(d) == Layout(d)
  {
    OnlyDigitsOfDigits(d);
    assert d[..Min(|d|, 8)] == d;
  }

  lemma MaskedExampleFull()
    ensures Masked("12345678") == "12/34/5678"
  {
    LayoutExampleFull();
    MaskedOfDigits("12345678");
  }

  /** Eight digits fill the whole mask. */
  lemma LayoutExampleFull()
    ensures AllDigits("12345678") && Layout("12345678") == "12/34/5678"
  {
    var c := "12345678";
    assert AllDigits(c) by {
      assert forall k :: 0 <= k < |c| ==> c[k] in "0123456789";
    }
    assert c[..2] == "12" && c[2..4] == "34" && c[4..] == "5678";
    assert Layout(c) == "12" + "/" + "34" + "/" + "5678";
  }

  /** Non-digits are dropped. */
  lemma MaskedExampleNonDigit()
    ensures Masked("1-2") == "12"
  {
    var a := "1-2";
    assert OnlyDigits(a[2..]) == "2";
    assert OnlyDigits(a[1..]) == "2";
    assert OnlyDigits(a) == "12";
    var d := "12";
    assert d[..Min(|d|, 8)] == d;
  }

  /** Digits past the eighth are discarded. */
  lemma MaskedExampleTooLong()
    ensures Masked("123456789") == "12/34/5678"
  {
    var c := "12345678";
    OnlyDigitsOfDigits(c);
    MaskedIgnoresExtraDigits(c, "9");
    assert c + "9" == "123456789";
    MaskedExampleFull();
  }
}
