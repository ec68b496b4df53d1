/** The request bodies of the category endpoints and their validation:
    a name, required and non-empty on create, and an optional colour that
    must be a hexadecimal colour `#rgb` or `#rrggbb`. A field is None when
    the body leaves it out. */
module CategoryDto {
  import opened Common

  datatype CategoryBody = CategoryBody(name: Option<string>, color: Option<string>)

  predicate AllHex(s: string)
  {
    forall i :: 0 <= i < |s| ==> IsHexDigit(s[i])
  }

  /** The colour pattern: `#` and then exactly six or exactly three hex
      digits of either case, anchored at both ends. */
  predicate IsHexColor(s: string)
  {
    |s| >= 1 && s[0] == '#' && (|s| - 1 == 6 || |s| - 1 == 3) && AllHex(s[1..])
  }

  /** The colour field: an absent colour is not checked, a present one must
      match the pattern. */
  predicate ValidColor(color: Option<string>)
  {
    color.Some? ==> IsHexColor(color.value)
  }

  /** The create body: a non-empty name and a valid colour. */
  predicate ValidCreate(b: CategoryBody)
  {
    b.name.Some? && b.name.value != "" && ValidColor(b.color)
  }

  /** The update body: both fields optional, with no constraint on a
      present name. */
  predicate ValidUpdate(b: CategoryBody)
  {
    ValidColor(b.color)
  }

  /** A valid colour is four or seven characters long and begins with `#`. */
  lemma HexColorShape(s: string)
    requires IsHexColor(s)
    ensures |s| == 4 || |s| == 7
    ensures s[0] == '#' && forall i :: 1 <= i < |s| ==> IsHexDigit(s[i])
  {
    assert forall i :: 1 <= i < |s| ==> s[i] == s[1..][i - 1];
  }

  /** The pattern accepts a string exactly when '#' followed by three or
      six hex digits spells it. */
  lemma HexColorOfDigits(digits: string)
    ensures IsHexColor("#" + digits) <==> ((|digits| == 3 || |digits| == 6) && AllHex(digits))
  {
    assert ("#" + digits)[1..] == digits;
  }

  /** The `#` is mandatory: a string of hex digits alone never matches. */
  lemma HexColorNeedsHash(s: string)
    requires AllHex(s)
    ensures !IsHexColor(s)
  {
    if |s| >= 1 {
      assert IsHexDigit(s[0]);
    }
  }

  /** Four and five digits are rejected, like every length but three and six. */
  lemma HexColorRejectsOtherLengths(digits: string)
    requires |digits| != 3 && |digits| != 6
    ensures !IsHexColor("#" + digits)
  {
    HexColorOfDigits(digits);
  }

  lemma HexDigitCase(c: char)
    ensures IsHexDigit(LowerChar(c)) <==> IsHexDigit(c)
    ensures IsHexDigit(UpperChar(c)) <==> IsHexDigit(c)
  {
  }

  /** Letters are accepted in either case: changing the case of a colour
      does not change whether it matches. */
  lemma HexColorIgnoresCase(s: string)
    ensures IsHexColor(Lower(s)) <==> IsHexColor(s)
    ensures IsHexColor(Upper(s)) <==> IsHexColor(s)
  {
    forall i | 0 <= i < |s| ensures IsHexDigit(Lower(s)[i]) <==> IsHexDigit(s[i]) {
      HexDigitCase(s[i]);
    }
    forall i | 0 <= i < |s| ensures IsHexDigit(Upper(s)[i]) <==> IsHexDigit(s[i]) {
      HexDigitCase(s[i]);
    }
    if |s| >= 1 {
      assert forall i :: 1 <= i < |s| ==> Lower(s)[1..][i - 1] == Lower(s)[i] && Upper(s)[1..][i - 1] == Upper(s)[i] && s[1..][i - 1] == s[i];
      assert AllHex(Lower(s)[1..]) <==> AllHex(s[1..]);
      assert AllHex(Upper(s)[1..]) <==> AllHex(s[1..]);
    }
  }

  /** Samples of the pattern: short and long forms of either case pass;
      a missing '#', a fourth digit and a non-hex letter fail. */
  lemma HexColorSamples()
    ensures IsHexColor("#3B82F6") && IsHexColor("#fff") && IsHexColor("#aBc123")
    ensures !IsHexColor("3B82F6") && !IsHexColor("#ffff") && !IsHexColor("#12345g") && !IsHexColor("")
  {
    assert !IsHexDigit("#12345g"[6]);
  }

  /** An empty update body is valid, and so is an empty name in an
      update, which create refuses. */
  lemma UpdateIsLenient()
    ensures ValidUpdate(CategoryBody(None, None))
    ensures ValidUpdate(CategoryBody(Some(""), None)) && !ValidCreate(CategoryBody(Some(""), None))
    ensures !ValidCreate(CategoryBody(None, None))
  {
  }

  /** Every valid create body is a valid update body. */
  lemma CreateIsStricter(b: CategoryBody)
    requires ValidCreate(b)
    ensures ValidUpdate(b)
  {
  }

  /** Create and update apply the same colour rule: with a name create accepts,
      a colour passes one exactly when it passes the other. */
  lemma SameColorRule(name: string, color: Option<string>)
    requires name != ""
    ensures ValidCreate(CategoryBody(Some(name), color)) <==> ValidUpdate(CategoryBody(None, color))
  {
  }
}
