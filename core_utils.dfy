/** Small helpers shared by the apps: prefix removal, image format by file name, and the URL scheme. */
module CoreUtils {
  import opened Text

  /** `remove_prefix`: the text after `prefix` when the text starts with it, else the text itself. */
  function RemovePrefix(text: string, prefix: string): (r: string)
    ensures StartsWith(text, prefix) ==> prefix + r == text
    ensures !StartsWith(text, prefix) ==> r == text
  {
    if StartsWith(text, prefix) then
      assert text[..|prefix|] + text[|prefix|..] == text;
      text[|prefix|..]
    else text
  }

  /** Removing the empty prefix changes nothing. */
  lemma RemoveEmptyPrefix(text: string)
    ensures RemovePrefix(text, "") == text
  {
    assert StartsWith(text, "");
  }

  /** Removing a prefix that was just added gives the original text back. */
  lemma RemoveAddedPrefix(prefix: string, text: string)
    ensures RemovePrefix(prefix + text, prefix) == text
  {
    assert (prefix + text)[..|prefix|] == prefix;
    assert (prefix + text)[|prefix|..] == text;
  }

  /**
   * `get_img_extension`: the format named by the text after the last '.', compared without case:
   * "PNG" for png, "GIF" for gif, otherwise "JPEG".
   */
  function ImgExtension(img: string): (ext: string)
    ensures ext == "JPEG" || ext == "PNG" || ext == "GIF"
  {
    FormatNamed(Lower(AfterLast(img, '.')))
  }

  /** The format a lower-cased last segment names. */
  function FormatNamed(last: string): string {
    if last == "png" then "PNG"
    else if last == "gif" then "GIF"
    else "JPEG"
  }

  /** Only the segment after the final dot matters, whatever comes before it. */
  lemma ImgExtensionOfLastSegment(stem: string, segment: string)
    requires forall j :: 0 <= j < |segment| ==> segment[j] != '.'
    ensures ImgExtension(stem + "." + segment) == ImgExtension(segment)
    ensures ImgExtension(stem + "." + segment) == FormatNamed(Lower(segment))
  {
    AfterLastSeparator(stem, segment, '.');
    var r := AfterLast(segment, '.');
    assert r == segment;
    assert AfterLast(stem + "." + segment, '.') == r;
  }

  /**
   * Whatever the stem, the last segment decides the format without regard to case: "PNG" exactly
   * for png, "GIF" exactly for gif, "JPEG" exactly for anything else.
   */
  lemma ImgExtensionCases(stem: string, segment: string)
    requires forall j :: 0 <= j < |segment| ==> segment[j] != '.'
    ensures ImgExtension(stem + "." + segment) == "PNG" <==> Lower(segment) == "png"
    ensures ImgExtension(stem + "." + segment) == "GIF" <==> Lower(segment) == "gif"
    ensures ImgExtension(stem + "." + segment) == "JPEG" <==> Lower(segment) != "png" && Lower(segment) != "gif"
  {
    ImgExtensionOfLastSegment(stem, segment);
  }

  /** `get_protocol`: "https" exactly when the site is configured for HTTPS. */
  function Protocol(useHttps: bool): (p: string)
    ensures p == "https" <==> useHttps
    ensures p == "http" <==> !useHttps
  {
    if useHttps then "https" else "http"
  }
}
