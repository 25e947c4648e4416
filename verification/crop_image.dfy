/** The image file name `showResults` derives from a predicted crop name (js/crop.js):
    `cropName.toLowerCase().replace(/\s+/g, '_')`. */
module CropImage {
  import opened JsString

  /** `replace(/\s+/g, '_')`: every maximal run of spaces becomes one underscore. */
  function CollapseSpaces(s: string): (r: string)
    ensures NoSpace(r)
    ensures |r| <= |s|
    ensures NoUpper(s) ==> NoUpper(r)
    ensures NoSpace(s) ==> r == s
    decreases |s|
  {
    if |s| == 0 then []
    else if IsSpace(s[0]) then
      var rest := TrimStart(s[1..]);
      assert NoUpper(s) ==> NoUpper(rest) by {
        if NoUpper(s) {
          forall i | 0 <= i < |rest| ensures !('A' <= rest[i] <= 'Z') {
            assert rest[i] == s[|s| - |rest| + i];
          }
        }
      }
      "_" + CollapseSpaces(rest)
    else
      [s[0]] + CollapseSpaces(s[1..])
  }

  /** The image name of a crop: lower case, no spaces, never longer than the crop name. */
  function ImageName(cropName: string): (name: string)
    ensures NoSpace(name) && NoUpper(name)
    ensures |name| <= |cropName|
  {
    CollapseSpaces(ToLower(cropName))
  }

  /** Normalising an image name again changes nothing. */
  lemma ImageNameIdempotent(cropName: string)
    ensures ImageName(ImageName(cropName)) == ImageName(cropName)
  {
  }

  /** What position `i` of `s` contributes to the image name, read locally: a non-space character
      stands for itself, the first space of a run becomes `_`, the other spaces of the run vanish. */
  function Contribution(s: string, i: nat): string
    requires i < |s|
  {
    if !IsSpace(s[i]) then [s[i]]
    else if i == 0 || !IsSpace(s[i - 1]) then "_"
    else []
  }

  /** The contributions of positions `i..|s|`, in order. */
  function ContributionsFrom(s: string, i: nat): string
    requires i <= |s|
    decreases |s| - i
  {
    if i == |s| then [] else Contribution(s, i) + ContributionsFrom(s, i + 1)
  }

  lemma {:induction false} CollapseByPosition(s: string, i: nat)
    requires i <= |s|
    ensures (i == 0 || !IsSpace(s[i - 1])) ==> CollapseSpaces(s[i..]) == ContributionsFrom(s, i)
    ensures (i > 0 && IsSpace(s[i - 1])) ==> CollapseSpaces(TrimStart(s[i..])) == ContributionsFrom(s, i)
    decreases |s| - i
  {
    if i == |s| {
      assert s[i..] == [];
    } else {
      CollapseByPosition(s, i + 1);
      var t := s[i..];
      assert t[0] == s[i] && t[1..] == s[i + 1..];
      assert ContributionsFrom(s, i) == Contribution(s, i) + ContributionsFrom(s, i + 1);
      if !IsSpace(s[i]) {
        assert TrimStart(t) == t;
        assert CollapseSpaces(t) == [s[i]] + CollapseSpaces(s[i + 1..]);
      } else {
        assert TrimStart(t) == TrimStart(s[i + 1..]);
        assert CollapseSpaces(t) == "_" + CollapseSpaces(TrimStart(s[i + 1..]));
      }
    }
  }

  /** The run-based definition agrees with the position-by-position reading of the regular
      expression on every input: the image name is the lower-cased name with each space that
      starts a run replaced by `_` and every other space dropped. */
  lemma ImageNameByPosition(cropName: string)
    ensures ImageName(cropName) == ContributionsFrom(ToLower(cropName), 0)
  {
    var lower := ToLower(cropName);
    CollapseByPosition(lower, 0);
    assert lower[0..] == lower;
  }
}
