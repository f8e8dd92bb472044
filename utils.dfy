/**
 * src/utils.ts: `splitWeaponScript` separates a weapon's `//#IMAGE:` header
 * line from its script text, the form in which the NPC server stores a
 * weapon's image and script.
 */
module Utils {
  import opened JsString

  const ImageHeader: string := "//#IMAGE:"

  /** The text with a '\n' appended when it does not already end with one. */
  function WithTrailingNewline(s: string): (r: string)
    ensures EndsWith(r, "\n")
    ensures EndsWith(s, "\n") ==> r == s
    ensures !EndsWith(s, "\n") ==> r == s + "\n"
  {
    if EndsWith(s, "\n") then s else s + "\n"
  }

  /** The position after the header line, and after one blank line if one follows it. */
  function BodyStart(script: string): (i: int)
    ensures 0 <= i <= |script|
    ensures '\n' !in script ==> i == 0
    ensures '\n' in script ==> 1 <= i && script[i - 1] == '\n'
    ensures '\n' in script ==> i == IndexOf(script, '\n') + 1 || i == IndexOf(script, '\n') + 2
  {
    var sep := IndexOf(script, '\n');
    if |script| > sep + 1 && script[sep + 1] == '\n' then sep + 2 else sep + 1
  }

  /** `splitWeaponScript(script)`: the image name and the script text. */
  function SplitWeaponScript(script: string): (r: (string, string))
    ensures EndsWith(r.1, "\n")
    ensures r.0 == [] || (!IsWhitespace(r.0[0]) && !IsWhitespace(r.0[|r.0| - 1]))
  {
    if StartsWith(script, ImageHeader) then
      (Trim(Substring(script, 9, IndexOf(script, '\n'))), WithTrailingNewline(Slice(script, BodyStart(script))))
    else
      ("", WithTrailingNewline(script))
  }

  /** Without the header, the image is empty and the script is the input, newline-terminated. */
  lemma NoHeader(script: string)
    requires !StartsWith(script, ImageHeader)
    ensures SplitWeaponScript(script) == ("", WithTrailingNewline(script))
  {
  }

  /** The header line has no newline, so the first newline of a headed script lies after it. */
  lemma NewlineAfterHeader(script: string)
    requires StartsWith(script, ImageHeader) && '\n' in script
    ensures 9 <= IndexOf(script, '\n')
  {
    assert script[..9] == ImageHeader;
  }

  /** With the header and a newline, the image is the trimmed rest of the header line. */
  lemma HeaderImage(script: string)
    requires StartsWith(script, ImageHeader) && '\n' in script
    ensures var i := IndexOf(script, '\n');
      9 <= i && SplitWeaponScript(script).0 == Trim(script[9..i])
  {
    NewlineAfterHeader(script);
  }

  /** The script part of a headed script is its text from `BodyStart` on. */
  lemma HeadedBody(script: string)
    requires StartsWith(script, ImageHeader)
    ensures SplitWeaponScript(script).1 == WithTrailingNewline(script[BodyStart(script)..])
  {
    assert Slice(script, BodyStart(script)) == script[BodyStart(script)..];
  }

  /**
   * The script part is what follows the header line, less exactly one blank
   * line when one follows the header directly: a second blank line is kept.
   */
  lemma HeaderBody(script: string)
    requires StartsWith(script, ImageHeader) && '\n' in script
    ensures var i := IndexOf(script, '\n');
      && (i + 1 < |script| && script[i + 1] == '\n' ==>
            SplitWeaponScript(script).1 == WithTrailingNewline(script[i + 2..]))
      && (!(i + 1 < |script| && script[i + 1] == '\n') ==>
            SplitWeaponScript(script).1 == WithTrailingNewline(script[i + 1..]))
  {
    var i := IndexOf(script, '\n');
    var b := BodyStart(script);
    HeadedBody(script);
    if i + 1 < |script| && script[i + 1] == '\n' {
      assert b == i + 2;
    } else {
      assert b == i + 1;
    }
  }

  /**
   * A header with no newline: `substring(9, -1)` is the first nine
   * characters, so the image is the header marker itself and nothing of the
   * input is stripped from the script.
   */
  lemma HeaderWithoutNewline(script: string)
    requires StartsWith(script, ImageHeader) && '\n' !in script
    ensures SplitWeaponScript(script) == (ImageHeader, WithTrailingNewline(script))
  {
    assert script[..9] == ImageHeader;
    assert forall k :: 0 <= k < |ImageHeader| ==> !IsWhitespace(ImageHeader[k]);
  }

  /** The form the extension writes is split back into its image and script. */
  lemma SplitRoundTrip(img: string, s: string)
    requires '\n' !in img && EndsWith(s, "\n")
    ensures SplitWeaponScript(ImageHeader + img + "\n\n" + s) == (Trim(img), s)
  {
    var script := ImageHeader + img + "\n\n" + s;
    assert StartsWith(script, ImageHeader) by {
      assert script[..9] == ImageHeader;
    }
    var n := 9 + |img|;
    assert script == (ImageHeader + img) + ['\n'] + ("\n" + s);
    IndexOfAfter(ImageHeader + img, '\n', "\n" + s);
    assert script[n + 1] == '\n';
    assert script[9..n] == img;
    assert script[n + 2..] == s;
  }
}
