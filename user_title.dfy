/**
 * The user title badge (components/UserTitle.tsx): a title prefix is kept
 * as one string `"title,#RRGGBB,#RRGGBB"`, and `parsePrefix` turns it into
 * the title and its text and background colours, or refuses it.
 */
module UserTitle {
  import opened Wrappers
  import opened JsText
  import opened Json

  datatype ParsedPrefix = ParsedPrefix(title: string, textColor: string, backgroundColor: string)

  predicate IsHexDigit(c: char) {
    '0' <= c <= '9' || 'A' <= c <= 'F' || 'a' <= c <= 'f'
  }

  /** The pattern `^#[0-9A-Fa-f]{6}$`: a hash and exactly six hexadecimal digits. */
  predicate IsColor(s: string) {
    |s| == 7 && s[0] == '#' && forall i :: 1 <= i < 7 ==> IsHexDigit(s[i])
  }

  /**
   * `parsePrefix`. The prop is absent (`None`), `null` or a JSON value; only
   * a non-empty string is read. It must split at `,` into exactly three
   * parts, and the two colours, once trimmed, must match the pattern.
   */
  function ParsePrefix(prefix: Option<Json>): (r: Option<ParsedPrefix>)
    ensures r.Some? ==> prefix.Some? && prefix.value.JStr? && prefix.value.s != ""
    ensures r.Some? ==> IsColor(r.value.textColor) && IsColor(r.value.backgroundColor)
    ensures r.Some? ==> !ContainsChar(r.value.title, ',')
  {
    if prefix.None? || !prefix.value.JStr? || prefix.value.s == "" then None
    else
      var parts := Split(prefix.value.s, ',');
      if |parts| != 3 then None
      else
        var title, textColor, backgroundColor := Trim(parts[0]), Trim(parts[1]), Trim(parts[2]);
        if !IsColor(textColor) || !IsColor(backgroundColor) then None
        else
          SplitPieces(prefix.value.s, ',');
          TrimKeepsOut(parts[0], ',');
          Some(ParsedPrefix(title, textColor, backgroundColor))
  }

  /** No piece of a split holds the separator. */
  lemma {:induction false} SplitPieces(s: string, sep: char)
    ensures forall k :: 0 <= k < |Split(s, sep)| ==> !ContainsChar(Split(s, sep)[k], sep)
  {
    if |s| > 0 {
      SplitPieces(s[1..], sep);
      var rest := Split(s[1..], sep);
      if s[0] != sep {
        assert forall k :: 1 <= k < |Split(s, sep)| ==> Split(s, sep)[k] == rest[k];
        assert Split(s, sep)[0] == [s[0]] + rest[0];
      } else {
        assert forall k :: 1 <= k < |Split(s, sep)| ==> Split(s, sep)[k] == rest[k - 1];
      }
    }
  }

  /** Trimming only removes characters. */
  lemma TrimKeepsOut(s: string, c: char)
    requires !ContainsChar(s, c)
    ensures !ContainsChar(Trim(s), c)
  {
    var t := TrimStart(s);
    var r := Trim(s);
    assert forall i :: 0 <= i < |r| ==> r[i] == t[i] == s[|s| - |t| + i];
  }

  /**
   * What is refused: a missing, `null`, non-string or empty prefix; one that
   * does not split into exactly three parts; one whose trimmed colours do
   * not both match the pattern. Anything else gives the three trimmed parts.
   */
  lemma ParsePrefixCases(prefix: Option<Json>)
    ensures prefix.None? || prefix.value.JNull? || !prefix.value.JStr? || prefix.value.s == "" ==>
      ParsePrefix(prefix).None?
    ensures prefix.Some? && prefix.value.JStr? && prefix.value.s != "" ==>
      var parts := Split(prefix.value.s, ',');
      (|parts| != 3 ==> ParsePrefix(prefix).None?)
      && (|parts| == 3 ==>
            (ParsePrefix(prefix).Some? <==> IsColor(Trim(parts[1])) && IsColor(Trim(parts[2])))
            && (ParsePrefix(prefix).Some? ==>
                  ParsePrefix(prefix).value == ParsedPrefix(Trim(parts[0]), Trim(parts[1]), Trim(parts[2]))))
  {
  }

  /** The string a title is stored as. */
  function Format(p: ParsedPrefix): string {
    p.title + "," + p.textColor + "," + p.backgroundColor
  }

  lemma ColorIsTrimmed(c: string)
    requires IsColor(c)
    ensures Trim(c) == c
  {
    TrimOfTrimmed(c);
  }

  /**
   * Round trip: a comma-free, already trimmed title with two valid
   * colours parses back to itself.
   */
  lemma ParseFormat(p: ParsedPrefix)
    requires !ContainsChar(p.title, ',') && Trim(p.title) == p.title
    requires IsColor(p.textColor) && IsColor(p.backgroundColor)
    ensures ParsePrefix(Some(JStr(Format(p)))) == Some(p)
  {
    var s := Format(p);
    assert !ContainsChar(p.textColor, ',') && !ContainsChar(p.backgroundColor, ',') by {
      assert p.textColor[0] == '#' && p.backgroundColor[0] == '#';
      assert forall i :: 1 <= i < 7 ==> IsHexDigit(p.textColor[i]) && IsHexDigit(p.backgroundColor[i]);
    }
    var parts := [p.title, p.textColor, p.backgroundColor];
    assert Join(parts, ',') == s by {
      assert parts[1..][1..] == [p.backgroundColor];
      assert Join(parts[1..], ',') == p.textColor + [','] + p.backgroundColor;
    }
    SplitJoin(parts, ',');
    ColorIsTrimmed(p.textColor);
    ColorIsTrimmed(p.backgroundColor);
    assert |s| > 0;
  }

  /** Trimming twice is trimming once. */
  lemma TrimIdempotent(s: string)
    ensures Trim(Trim(s)) == Trim(s)
  {
    var t := TrimStart(s);
    var r := Trim(s);
    if |r| > 0 {
      assert r[0] == t[0];
    }
    TrimOfTrimmed(r);
  }

  /** A parsed title, written back out, parses to the same title. */
  lemma FormatParse(prefix: Option<Json>)
    requires ParsePrefix(prefix).Some?
    ensures ParsePrefix(Some(JStr(Format(ParsePrefix(prefix).value)))) == ParsePrefix(prefix)
  {
    var p := ParsePrefix(prefix).value;
    TrimIdempotent(Split(prefix.value.s, ',')[0]);
    ParseFormat(p);
  }
}
