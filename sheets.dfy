/**
 * The admin upload of evaluation sheets: the numbering of saved sheet images
 * (`evaluation_<n><ext>` in the upload folder) and the guards of the upload
 * endpoint. The folder listing is a parameter; writing a file adds its name.
 */
module Sheets {
  import opened Wrappers
  import opened Text
  import opened AiService

  const SheetPrefix: string := "evaluation_"

  /** The text after the first `_`, or "" when there is none. */
  function AfterUnderscore(f: string): string {
    if f == [] then [] else if f[0] == '_' then f[1..] else AfterUnderscore(f[1..])
  }

  /** The text before the first `_` or `.`. */
  function LeadingSegment(s: string): string {
    if s == [] || s[0] == '_' || s[0] == '.' then [] else [s[0]] + LeadingSegment(s[1..])
  }

  /** `f.split('_')[1].split('.')[0]`: after the first `_`, up to the next `_` or `.`. */
  function NumberText(f: string): string {
    LeadingSegment(AfterUnderscore(f))
  }

  /** The number text is the one `split` gives: after the first `_`, up to the next `_`, then up to the first `.`. */
  lemma {:induction false} NumberTextIsSplit(f: string)
    requires '_' in f
    ensures NumberText(f) == Before(Before(After(f, '_'), '_'), '.')
  {
    AfterUnderscoreIsAfter(f);
    LeadingSegmentIsBefore(After(f, '_'));
  }

  lemma {:induction false} AfterUnderscoreIsAfter(f: string)
    requires '_' in f
    ensures AfterUnderscore(f) == After(f, '_')
    decreases |f|
  {
    if f[0] != '_' {
      assert '_' in f[1..] by {
        var i :| 0 <= i < |f| && f[i] == '_';
        assert f[1..][i - 1] == '_';
      }
      AfterUnderscoreIsAfter(f[1..]);
      assert IndexOf(f, '_') == 1 + IndexOf(f[1..], '_');
      assert f[1..][IndexOf(f[1..], '_') + 1..] == f[IndexOf(f, '_') + 1..];
    }
  }

  lemma {:induction false} LeadingSegmentIsBefore(s: string)
    ensures LeadingSegment(s) == Before(Before(s, '_'), '.')
    decreases |s|
  {
    if s != [] && s[0] != '_' && s[0] != '.' {
      LeadingSegmentIsBefore(s[1..]);
      var t := Before(s, '_');
      assert t == [s[0]] + Before(s[1..], '_') by {
        assert IndexOf(s, '_') == 1 + IndexOf(s[1..], '_');
      }
      assert IndexOf(t, '.') == 1 + IndexOf(t[1..], '.');
      assert t[1..] == Before(s[1..], '_');
    } else if s != [] && s[0] == '.' {
      assert IndexOf(s, '_') > 0;
      assert Before(s, '_')[0] == '.';
    }
  }

  /**
   * The number a file name counts with: names starting with `evaluation_`
   * whose number text is all digits (`isdigit`), read as a decimal.
   */
  function SheetNumber(f: string): Option<nat> {
    if StartsWith(f, SheetPrefix) && IsDigitString(NumberText(f)) then Some(DigitsValue(NumberText(f))) else None
  }

  /** `max(nums, default=0)` over the numbers that are present. */
  function MaxNumber(nums: seq<Option<nat>>): (m: nat)
    ensures forall i :: 0 <= i < |nums| && nums[i].Some? ==> nums[i].value <= m
    ensures m == 0 || exists i :: 0 <= i < |nums| && nums[i] == Some(m)
  {
    if nums == [] then 0
    else
      var m := MaxNumber(nums[..|nums| - 1]);
      assert forall i :: 0 <= i < |nums| - 1 ==> nums[..|nums| - 1][i] == nums[i];
      match nums[|nums| - 1]
      case Some(k) => if k > m then k else m
      case None => m
  }

  /** The number each listed name counts with, in listing order. */
  function SheetNumbers(files: seq<string>): (nums: seq<Option<nat>>)
    ensures |nums| == |files|
  {
    if files == [] then [] else SheetNumbers(files[..|files| - 1]) + [SheetNumber(files[|files| - 1])]
  }

  lemma {:induction false} SheetNumbersAt(files: seq<string>, i: nat)
    requires i < |files|
    ensures SheetNumbers(files)[i] == SheetNumber(files[i])
  {
    var init := files[..|files| - 1];
    if i < |init| {
      SheetNumbersAt(init, i);
      assert init[i] == files[i];
    }
  }

  /**
   * `get_next_evaluation_number`: one more than the largest number a name
   * counts with, 1 when none counts; so it is greater than every counted
   * number and is the successor of one of them.
   */
  function NextEvaluationNumber(files: seq<string>): (n: nat)
    ensures var nums := SheetNumbers(files);
      n >= 1 &&
      (forall i :: 0 <= i < |nums| && nums[i].Some? ==> nums[i].value < n) &&
      (n == 1 || exists i :: 0 <= i < |nums| && nums[i] == Some(n - 1))
  {
    MaxNumber(SheetNumbers(files)) + 1
  }

  lemma {:induction false} MaxNumberAppend(nums: seq<Option<nat>>, k: nat)
    requires k > MaxNumber(nums)
    ensures MaxNumber(nums + [Some(k)]) == k
  {
    assert (nums + [Some(k)])[..|nums|] == nums;
  }

  /**
   * `os.path.splitext(p)[1]`: from the last `.` of the last path component,
   * unless that dot only belongs to the leading dots of the component.
   */
  function Extension(p: string): (ext: string)
    ensures ext == "" || (ext[0] == '.' && EndsWith(p, ext))
  {
    var dot := LastIndexOf(p, '.');
    var sep := LastIndexOf(p, '/');
    if dot < |p| && (sep == |p| || sep < dot) && !AllDots(p[(if sep == |p| then 0 else sep + 1)..dot]) then p[dot..]
    else ""
  }

  predicate AllDots(s: string) {
    forall i :: 0 <= i < |s| ==> s[i] == '.'
  }

  /** Position of the last `c` in `s`, or `|s|` when there is none (`rfind`). */
  function LastIndexOf(s: string, c: char): (k: nat)
    ensures k <= |s|
    ensures k < |s| ==> s[k] == c && forall i :: k < i < |s| ==> s[i] != c
    ensures k == |s| ==> c !in s
  {
    if s == [] then 0
    else if s[|s| - 1] == c then |s| - 1
    else
      var k := LastIndexOf(s[..|s| - 1], c);
      if k < |s| - 1 then k else |s|
  }

  /** `splitext` of `base.ext`, with no dot or slash in either part and a non-empty base, is `.ext`. */
  lemma {:induction false} ExtensionOfName(base: string, ext: string)
    requires base != [] && '.' !in base && '/' !in base
    requires '.' !in ext && '/' !in ext
    ensures Extension(base + "." + ext) == "." + ext
  {
    var p := base + "." + ext;
    assert forall i :: |base| < i < |p| ==> p[i] == ext[i - |base| - 1];
    assert forall i :: 0 <= i < |base| ==> p[i] == base[i];
    LastIndexUnique(p, '.', |base|);
    LastIndexUnique(p, '/', |p|);
    assert p[..|base|] == base;
    assert !AllDots(p[..|base|]) by {
      assert base[0] != '.';
    }
    assert p[|base|..] == "." + ext;
  }

  /** A name whose only dot leads it, such as `.png`, has no extension. */
  lemma {:induction false} ExtensionOfDotName(name: string)
    requires '.' !in name && '/' !in name
    ensures Extension("." + name) == ""
  {
    var p := "." + name;
    assert forall i :: 0 < i < |p| ==> p[i] == name[i - 1];
    LastIndexUnique(p, '.', 0);
    LastIndexUnique(p, '/', |p|);
    assert p[..0] == [];
  }

  /** The last `c` is the one position holding `c` with no `c` after it. */
  lemma {:induction false} LastIndexUnique(s: string, c: char, k: nat)
    requires k < |s| ==> s[k] == c && forall i :: k < i < |s| ==> s[i] != c
    requires k >= |s| ==> k == |s| && c !in s
    ensures LastIndexOf(s, c) == k
  {
  }

  /** The name the upload is saved under. */
  function SavedName(n: nat, filename: string): string {
    SheetPrefix + DecimalNat(n) + Extension(filename)
  }

  /** A saved name counts again with its own number, whatever the extension of the upload. */
  lemma {:induction false} SavedNameRoundTrip(n: nat, filename: string)
    ensures SheetNumber(SavedName(n, filename)) == Some(n)
  {
    var d := DecimalNat(n);
    var ext := Extension(filename);
    var f := SavedName(n, filename);
    assert f == SheetPrefix + (d + ext);
    AfterPrefix(d + ext);
    SegmentOfDigits(d, ext);
    assert f[..|SheetPrefix|] == SheetPrefix;
    DecimalRoundTrip(n);
  }

  /** The first `_` of a saved name is the one of its prefix. */
  lemma {:induction false} AfterPrefix(t: string)
    ensures AfterUnderscore(SheetPrefix + t) == t
  {
    var a := "evaluation";
    assert SheetPrefix + t == a + ("_" + t);
    assert '_' !in a by {
      forall i | 0 <= i < |a| ensures a[i] != '_' { }
    }
    SkipNoUnderscore(a, "_" + t);
  }

  lemma {:induction false} SkipNoUnderscore(a: string, b: string)
    requires '_' !in a && b != [] && b[0] == '_'
    ensures AfterUnderscore(a + b) == b[1..]
    decreases |a|
  {
    if a != [] {
      assert (a + b)[1..] == a[1..] + b;
      SkipNoUnderscore(a[1..], b);
    } else {
      assert a + b == b;
    }
  }

  /** Digits followed by an extension: the number text is the digits. */
  lemma {:induction false} SegmentOfDigits(d: string, ext: string)
    requires AllDigits(d)
    requires ext == "" || ext[0] == '.'
    ensures LeadingSegment(d + ext) == d
    decreases |d|
  {
    if d != [] {
      assert IsDigit(d[0]);
      assert (d + ext)[1..] == d[1..] + ext;
      SegmentOfDigits(d[1..], ext);
    } else {
      assert d + ext == ext;
    }
  }

  /**
   * Saving under the next number never overwrites a file, and the following
   * upload gets the number after it.
   */
  lemma {:induction false} SaveAdvancesNumber(files: seq<string>, filename: string)
    ensures var n := NextEvaluationNumber(files);
      SavedName(n, filename) !in files && SheetNumber(SavedName(n, filename)) == Some(n) &&
      NextEvaluationNumber(files + [SavedName(n, filename)]) == n + 1
  {
    var n := NextEvaluationNumber(files);
    var f := SavedName(n, filename);
    SavedNameRoundTrip(n, filename);
    if f in files {
      var i :| 0 <= i < |files| && files[i] == f;
      SheetNumbersAt(files, i);
    }
    var files' := files + [f];
    assert files'[..|files|] == files;
    MaxNumberAppend(SheetNumbers(files), n);
  }

  // ---------------------------------------------------------------------------
  // The upload endpoint
  // ---------------------------------------------------------------------------

  /** The multipart field `file`: absent, or a file name with the number of bytes sent. */
  datatype Upload = NoFile | File(filename: string, size: nat)

  /** What Pillow makes of the bytes: an image of some size, or the error it raises. */
  datatype Image = Image(width: int, height: int) | Undecodable(detail: string)

  datatype SheetBody = Message(msg: string) | Result(reading: Reading, savedImage: string)

  /** The response and the upload folder afterwards. */
  datatype SheetResponse = SheetResponse(status: int, body: SheetBody, files: seq<string>)

  /**
   * `process_sheet_ai`. The three upload checks answer 400 before a number is
   * taken or a file written. The image is saved before it is read, so a
   * reading that fails (400 for a ValueError, 500 for any other error) still
   * leaves the file in the folder.
   */
  function ProcessSheet(files: seq<string>, upload: Upload, image: Image, reply: Reply): (r: SheetResponse) {
    if upload.NoFile? then SheetResponse(400, Message("Arquivo não enviado."), files)
    else if upload.filename == "" then SheetResponse(400, Message("Nenhum arquivo selecionado."), files)
    else if upload.size == 0 then SheetResponse(400, Message("Arquivo enviado está vazio ou corrompido."), files)
    else
      var name := SavedName(NextEvaluationNumber(files), upload.filename);
      ReadSavedImage(files + [name], name, image, reply)
  }

  /**
   * The part of `process_sheet_ai` after the image is saved as `name`: the
   * folder keeps the file whatever the reading ends in, and only a reading
   * answers 200, naming the saved file.
   */
  function ReadSavedImage(files: seq<string>, name: string, image: Image, reply: Reply): (r: SheetResponse)
    ensures r.files == files
    ensures r.status == 200 <==> r.body.Result?
    ensures r.body.Result? ==> r.body.savedImage == name && r.body.reading.Reading?
  {
    match image
    case Undecodable(detail) => SheetResponse(500, Message("Erro interno: " + detail), files)
    case Image(width, height) =>
      match ProcessSheetImage(width, height, reply)
      case ReadError(message) => SheetResponse(400, Message(message), files)
      case Reading(scores, warning) => SheetResponse(200, Result(Reading(scores, warning), name), files)
  }

  /** The upload checks are what refuse a request without touching the folder; every other request writes a file. */
  lemma {:induction false} RefusedUploadKeepsFolder(files: seq<string>, upload: Upload, image: Image, reply: Reply)
    ensures var r := ProcessSheet(files, upload, image, reply);
      upload.NoFile? || upload.filename == "" || upload.size == 0 <==> r.files == files && r.status == 400
  {
  }

  /**
   * A request that passes the upload checks adds exactly one new file, under
   * the next number, and a 200 names that file.
   */
  lemma {:induction false} AcceptedUploadSavesOnce(files: seq<string>, upload: Upload, image: Image, reply: Reply)
    requires upload.File? && upload.filename != "" && upload.size > 0
    ensures var r := ProcessSheet(files, upload, image, reply);
      var n := NextEvaluationNumber(files);
      var name := SavedName(n, upload.filename);
      r.files == files + [name] && name !in files && SheetNumber(name) == Some(n) &&
      (r.status == 200 ==> r.body.Result? && r.body.savedImage == name)
  {
    var name := SavedName(NextEvaluationNumber(files), upload.filename);
    assert ProcessSheet(files, upload, image, reply) == ReadSavedImage(files + [name], name, image, reply);
    SaveAdvancesNumber(files, upload.filename);
  }
}
