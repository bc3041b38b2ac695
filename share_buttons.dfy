/**
 * The strings built by the share panel's download action
 * (`handleDownloadImage` in src/components/sharing/ShareButtons.tsx): the
 * Open Graph image path and the download file name.
 *
 * JavaScript strings are sequences of UTF-16 code units and the sanitising
 * regular expression has no `u` flag, so it works unit by unit; the display
 * name is therefore a sequence of code units here.
 */
module ShareButtons {

  /** One UTF-16 code unit. */
  newtype CodeUnit = x: int | 0 <= x < 0x1_0000

  const UNDERSCORE: CodeUnit := 0x5F

  /** `[a-zA-Z0-9]` on code units. */
  predicate IsAsciiAlnum(u: CodeUnit)
  {
    0x30 <= u <= 0x39 || 0x41 <= u <= 0x5A || 0x61 <= u <= 0x7A
  }

  /** `replace(/[^a-zA-Z0-9]/g, '_')`, written as the regex works: unit by unit, left to right. */
  function Sanitize(name: seq<CodeUnit>): (r: seq<CodeUnit>)
    ensures |r| == |name|
  {
    if name == [] then []
    else [if IsAsciiAlnum(name[0]) then name[0] else UNDERSCORE] + Sanitize(name[1..])
  }

  /**
   * Each unit is kept when it is an ASCII letter or digit and becomes '_'
   * otherwise, so the result is over `[A-Za-z0-9_]`.
   */
  lemma {:induction false} SanitizeUnits(name: seq<CodeUnit>)
    ensures forall i :: 0 <= i < |name| ==>
              Sanitize(name)[i] == if IsAsciiAlnum(name[i]) then name[i] else UNDERSCORE
    ensures forall i :: 0 <= i < |name| ==> IsAsciiAlnum(Sanitize(name)[i]) || Sanitize(name)[i] == UNDERSCORE
  {
    if name != [] {
      SanitizeUnits(name[1..]);
      assert forall i :: 1 <= i < |name| ==> Sanitize(name)[i] == Sanitize(name[1..])[i - 1];
    }
  }

  /** Sanitising twice is sanitising once. */
  lemma SanitizeIdempotent(name: seq<CodeUnit>)
    ensures Sanitize(Sanitize(name)) == Sanitize(name)
  {
    var once := Sanitize(name);
    SanitizeUnits(name);
    SanitizeUnits(once);
    assert !IsAsciiAlnum(UNDERSCORE);
  }

  /** The code units of an ASCII literal. */
  function Ascii(s: string): (r: seq<CodeUnit>)
    requires forall i :: 0 <= i < |s| ==> s[i] as int < 0x80
    ensures |r| == |s| && forall i :: 0 <= i < |s| ==> r[i] as int == s[i] as int
  {
    seq(|s|, i requires 0 <= i < |s| => s[i] as int as CodeUnit)
  }

  /** The fixed suffix of every download name. */
  function BracketSuffix(): (r: seq<CodeUnit>)
    ensures |r| == 12
  {
    Ascii("_bracket.png")
  }

  /** `anchor.download`: the sanitised display name followed by "_bracket.png". */
  function DownloadName(displayName: seq<CodeUnit>): seq<CodeUnit>
  {
    Sanitize(displayName) + BracketSuffix()
  }

  /**
   * The download name is the sanitised name (same length as the display
   * name) followed by "_bracket.png", and stays over `[A-Za-z0-9_.]`.
   */
  lemma DownloadNameShape(displayName: seq<CodeUnit>)
    ensures var n := DownloadName(displayName);
            |n| == |displayName| + 12
            && n[..|displayName|] == Sanitize(displayName)
            && n[|displayName|..] == Ascii("_bracket.png")
            && forall i :: 0 <= i < |n| ==> IsAsciiAlnum(n[i]) || n[i] == UNDERSCORE || n[i] == 0x2E
  {
    var n := DownloadName(displayName);
    SanitizeUnits(displayName);
    assert n[..|displayName|] == Sanitize(displayName);
    assert n[|displayName|..] == BracketSuffix();
    forall i | |displayName| <= i < |n|
      ensures IsAsciiAlnum(n[i]) || n[i] == UNDERSCORE || n[i] == 0x2E
    {
      assert n[i] == BracketSuffix()[i - |displayName|];
    }
  }

  /** `${bracketUrl}/opengraph-image`, used by the download and by its fallback. */
  function OgImagePath(bracketUrl: string): (p: string)
    ensures |p| == |bracketUrl| + 16
  {
    bracketUrl + "/opengraph-image"
  }

  /** The image path extends the bracket URL by the image route. */
  lemma OgImagePathShape(bracketUrl: string)
    ensures OgImagePath(bracketUrl)[..|bracketUrl|] == bracketUrl
    ensures OgImagePath(bracketUrl)[|bracketUrl|..] == "/opengraph-image"
  {
  }
}
