/** The two functions of Node's `path` module (POSIX flavour) that the track
    endpoint uses to derive a default title from a file name:
    `path.extname(name)` and `path.basename(name, suffix)`.

    Directory entries returned by `readdir` never contain the separator `/`,
    so the model describes these functions on such names only and leaves the
    separator scanning of Node's implementation out. */
module NodePath {

  /** A name as it appears in a directory listing. `readdir` never yields a
      name containing `/`; the functions below agree with Node only on such
      names. */
  type EntryName = string

  /** `s` ends with `suffix` (JavaScript `String.prototype.endsWith`). */
  predicate EndsWith(s: string, suffix: string) {
    |suffix| <= |s| && s[|s| - |suffix|..] == suffix
  }

  /** Index of the last occurrence of `c` in `s`, or -1 when there is none
      (JavaScript `lastIndexOf`). */
  function LastIndexOf(s: string, c: char): (r: int)
    ensures -1 <= r < |s|
    ensures r == -1 <==> c !in s
    ensures 0 <= r ==> s[r] == c
    ensures forall j :: r < j < |s| ==> s[j] != c
  {
    if |s| == 0 then -1
    else if s[|s| - 1] == c then |s| - 1
    else LastIndexOf(s[..|s| - 1], c)
  }

  /** `path.extname(name)`: the part from the last dot to the end, except that
      a name whose last dot is its first character (`.mp3`, `.bashrc`), a name
      without a dot, and the name `..` have no extension. */
  function Extname(name: EntryName): (ext: string)
    ensures ext == "" || (ext[0] == '.' && '.' !in ext[1..])
    ensures EndsWith(name, ext)
    ensures ext != "" ==> |ext| < |name|
  {
    var dot := LastIndexOf(name, '.');
    if dot <= 0 || name == ".." then ""
    else name[dot..]
  }

  /** `path.basename(name, suffix)` for a name without separators: the name
      with `suffix` removed when it ends with it, otherwise the whole name. */
  function Basename(name: EntryName, suffix: string): (base: string)
    ensures EndsWith(name, suffix) ==> base + suffix == name
    ensures !EndsWith(name, suffix) ==> base == name
  {
    if EndsWith(name, suffix) then name[..|name| - |suffix|] else name
  }

  /** `path.basename(name, path.extname(name))`: the name with its extension
      stripped. */
  function Stem(name: EntryName): (stem: string)
    ensures |stem| <= |name| && stem == name[..|stem|]
  {
    Basename(name, Extname(name))
  }

  /** Stripping the extension loses nothing: the stem followed by the
      extension is the name, and a non-empty name has a non-empty stem. */
  lemma StemExtnameRoundTrip(name: EntryName)
    ensures Stem(name) + Extname(name) == name
    ensures name != "" ==> Stem(name) != ""
  {
  }

  /** When the name ends with `.` followed by dot-free characters and that
      dot is not its first character, the stem is everything before that
      dot (the name `..` is the one exception Node carves out). */
  lemma StemOfSuffix(name: EntryName, ext: string)
    requires |ext| >= 1 && ext[0] == '.' && '.' !in ext[1..]
    requires EndsWith(name, ext) && |ext| < |name| && name != ".."
    ensures Extname(name) == ext
    ensures Stem(name) == name[..|name| - |ext|]
  {
    var k := |name| - |ext|;
    assert name[k] == '.';
    forall j | k < j < |name|
      ensures name[j] != '.'
    {
      assert name[j] == ext[j - k] == ext[1..][j - k - 1];
    }
    assert LastIndexOf(name, '.') == k;
  }

  /** The quirk of `path.extname`: a name that is nothing but `.` and
      dot-free characters has no extension, so its stem is the whole name. */
  lemma LeadingDotOnlyIsNotStripped(name: EntryName)
    requires |name| >= 1 && name[0] == '.' && '.' !in name[1..]
    ensures Extname(name) == ""
    ensures Stem(name) == name
  {
    forall j | 0 < j < |name|
      ensures name[j] != '.'
    {
      assert name[j] == name[1..][j - 1];
    }
    assert LastIndexOf(name, '.') == 0;
  }
}
