/**
 * The helpers of the registration page (script.js): the phone number for a
 * WhatsApp link, the guarantor fields that the player type makes required,
 * and the PDF receipt's authorization block and file name.
 */
module RegistrationForm {
  import opened Text
  import opened Sequences

  /** `phone.replace(/\D/g, '')`. */
  function StripNonDigits(phone: string): string
  {
    Filter(phone, IsDigit)
  }

  /**
   * What is left are the digits of the input, all of them, each as often
   * as it occurs, in their order.
   */
  lemma StripNonDigitsSpec(phone: string)
    ensures AllDigits(StripNonDigits(phone))
    ensures forall c :: c in StripNonDigits(phone) <==> c in phone && IsDigit(c)
    ensures forall c :: multiset(StripNonDigits(phone))[c] == if IsDigit(c) then multiset(phone)[c] else 0
    ensures IsSubsequence(StripNonDigits(phone), phone)
  {
    var d := StripNonDigits(phone);
    assert forall i :: 0 <= i < |d| ==> d[i] in d;
    forall c {
      FilterMultiset(phone, IsDigit, c);
    }
    FilterIsSubsequence(phone, IsDigit);
  }

  /** The number after the Paraguayan prefix rule, from the digits alone. */
  function WithCountryCode(digits: string): (r: string)
  {
    if |digits| == 9 && digits[0] == '0' then "595" + digits[1..]
    else if |digits| == 9 then "595" + digits
    else digits
  }

  /**
   * A nine-digit number gets the 595 prefix, replacing a leading 0 (eleven
   * digits) or in front of all nine (twelve digits); any other length is
   * left alone. The digits of the number end the result in their order.
   */
  lemma WithCountryCodeSpec(digits: string)
    requires AllDigits(digits)
    ensures var r := WithCountryCode(digits);
      AllDigits(r) &&
      (|digits| == 9 && digits[0] == '0' ==> |r| == 11 && r[..3] == "595" && r[3..] == digits[1..]) &&
      (|digits| == 9 && digits[0] != '0' ==> |r| == 12 && r[..3] == "595" && r[3..] == digits) &&
      (|digits| != 9 ==> r == digits)
  {
    var r := WithCountryCode(digits);
    if |digits| == 9 {
      assert forall i :: 3 <= i < |r| ==> r[i] == r[3..][i - 3];
    }
  }

  /** The phone normalisation of `sendWhatsApp`. */
  method WhatsAppNumber(phone: string) returns (playerPhone: string)
    ensures playerPhone == WithCountryCode(StripNonDigits(phone))
  {
    playerPhone := StripNonDigits(phone);
    if |playerPhone| == 9 && playerPhone[0] == '0' {
      playerPhone := "595" + playerPhone[1..];
    } else if |playerPhone| == 9 {
      playerPhone := "595" + playerPhone;
    }
  }

  /** The player types that need an authorizing club member. */
  predicate NeedsGuarantor(playerType: string)
  {
    playerType == "conyuge" || playerType == "adherente"
  }

  /** The part of the form the player type controls. */
  class GuarantorSection {
    var visible: bool
    var socioNameRequired: bool
    var socioDniRequired: bool
    var socioPhoneRequired: bool
    var socioFileRequired: bool

    /** The section is shown exactly when its four inputs are required. */
    predicate Consistent()
      reads this
    {
      socioNameRequired == visible && socioDniRequired == visible &&
      socioPhoneRequired == visible && socioFileRequired == visible
    }

    /** The `change` handler of the player type select. */
    method OnPlayerTypeChange(playerType: string)
      modifies this
      ensures Consistent()
      ensures visible == NeedsGuarantor(playerType)
    {
      if playerType == "conyuge" || playerType == "adherente" {
        visible := true;
        socioNameRequired := true;
        socioDniRequired := true;
        socioPhoneRequired := true;
        socioFileRequired := true;
      } else {
        visible := false;
        socioNameRequired := false;
        socioDniRequired := false;
        socioPhoneRequired := false;
        socioFileRequired := false;
      }
    }
  }

  /** Whether the receipt carries the club member's authorization: every type but `socio`. */
  predicate PdfHasAuthorization(playerType: string)
  {
    playerType != "socio"
  }

  /** A type that needs a guarantor on the form gets the authorization on the receipt. */
  lemma GuarantorTypesGetAuthorization(playerType: string)
    requires NeedsGuarantor(playerType)
    ensures PdfHasAuthorization(playerType)
  {
  }

  /**
   * The receipt prints the guarantor's authorization, with whatever the
   * guarantor fields hold, for every type other than `socio`, but the form
   * only asks for those fields for `conyuge` and `adherente`: the two
   * checks disagree on exactly the remaining types.
   */
  lemma AuthorizationWithoutGuarantor(playerType: string)
    ensures PdfHasAuthorization(playerType) && !NeedsGuarantor(playerType) <==>
            playerType != "socio" && playerType != "conyuge" && playerType != "adherente"
  {
  }

  /** `s.replace(/\s+/g, '_')`: each maximal run of white space becomes one underscore. */
  function CollapseWhitespace(s: string): (r: string)
    ensures |r| <= |s|
    decreases |s|
  {
    if s == [] then []
    else if IsWhitespace(s[0]) then "_" + CollapseWhitespace(TrimStart(s[1..]))
    else [s[0]] + CollapseWhitespace(s[1..])
  }

  lemma {:induction false} CollapseNoWhitespace(s: string)
    ensures NoWhitespace(CollapseWhitespace(s))
    decreases |s|
  {
    if s != [] {
      if IsWhitespace(s[0]) {
        CollapseNoWhitespace(TrimStart(s[1..]));
      } else {
        CollapseNoWhitespace(s[1..]);
      }
    }
  }

  /** A name without white space is kept as it is. */
  lemma {:induction false} CollapseKeeps(s: string)
    requires NoWhitespace(s)
    ensures CollapseWhitespace(s) == s
  {
    if s != [] {
      CollapseKeeps(s[1..]);
    }
  }

  /** Collapsing twice is collapsing once. */
  lemma CollapseIdempotent(s: string)
    ensures CollapseWhitespace(CollapseWhitespace(s)) == CollapseWhitespace(s)
  {
    CollapseNoWhitespace(s);
    CollapseKeeps(CollapseWhitespace(s));
  }

  /** A run of white space followed by a non-space becomes a single underscore. */
  lemma CollapseRun(w: string, t: string)
    requires w != [] && forall i :: 0 <= i < |w| ==> IsWhitespace(w[i])
    requires t == [] || !IsWhitespace(t[0])
    ensures CollapseWhitespace(w + t) == "_" + CollapseWhitespace(t)
  {
    assert (w + t)[0] == w[0];
    assert (w + t)[1..] == w[1..] + t;
    TrimStartSkips(w[1..], t);
  }

  /** Text ending in a non-space is collapsed independently of what follows it. */
  lemma {:induction false} CollapseAppend(a: string, b: string)
    requires a == [] || !IsWhitespace(a[|a| - 1])
    ensures CollapseWhitespace(a + b) == CollapseWhitespace(a) + CollapseWhitespace(b)
    decreases |a|, 1
  {
    if a == [] {
      assert a + b == b;
    } else if IsWhitespace(a[0]) {
      CollapseAppendRun(a, b);
    } else {
      assert (a + b)[0] == a[0];
      assert (a + b)[1..] == a[1..] + b;
      CollapseAppend(a[1..], b);
    }
  }

  /** CollapseAppend when `a` starts with white space. */
  lemma {:induction false} CollapseAppendRun(a: string, b: string)
    requires a != [] && IsWhitespace(a[0]) && !IsWhitespace(a[|a| - 1])
    ensures CollapseWhitespace(a + b) == CollapseWhitespace(a) + CollapseWhitespace(b)
    decreases |a|, 0
  {
    var w, t := LeadingRun(a);
    calc {
      CollapseWhitespace(a + b);
      == { assert a + b == w + (t + b); }
      CollapseWhitespace(w + (t + b));
      == { assert (t + b)[0] == t[0]; CollapseRun(w, t + b); }
      "_" + CollapseWhitespace(t + b);
      == { CollapseAppend(t, b); }
      "_" + (CollapseWhitespace(t) + CollapseWhitespace(b));
      ("_" + CollapseWhitespace(t)) + CollapseWhitespace(b);
      == { CollapseRun(w, t); }
      CollapseWhitespace(a) + CollapseWhitespace(b);
    }
  }

  /** A string that starts with white space and ends in a non-space splits into its leading run and the rest. */
  lemma LeadingRun(a: string) returns (w: string, t: string)
    requires a != [] && IsWhitespace(a[0]) && !IsWhitespace(a[|a| - 1])
    ensures a == w + t && w != [] && forall i :: 0 <= i < |w| ==> IsWhitespace(w[i])
    ensures t != [] && !IsWhitespace(t[0]) && t[|t| - 1] == a[|a| - 1]
  {
    var rest := a[1..];
    t := TrimStart(rest);
    w := a[..|a| - |t|];
    assert a == w + t;
    forall i | 0 <= i < |w| ensures IsWhitespace(w[i]) {
      if i > 0 {
        assert w[i] == rest[i - 1];
      }
    }
  }

  /** The name of the downloaded receipt. */
  function PdfFileName(fullName: string): (name: string)
    ensures |name| == |CollapseWhitespace(fullName)| + 16
    ensures name[..12] == "Inscripcion_" && name[|name| - 4..] == ".pdf"
    ensures name[12..|name| - 4] == CollapseWhitespace(fullName)
  {
    "Inscripcion_" + CollapseWhitespace(fullName) + ".pdf"
  }

  /** The file name has no white space, and a name without white space appears in it unchanged. */
  lemma PdfFileNameSpec(fullName: string)
    ensures NoWhitespace(PdfFileName(fullName))
    ensures NoWhitespace(fullName) ==> PdfFileName(fullName) == "Inscripcion_" + fullName + ".pdf"
  {
    CollapseNoWhitespace(fullName);
    if NoWhitespace(fullName) {
      CollapseKeeps(fullName);
    }
  }
}
