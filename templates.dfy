/** Saved commit-message templates: one file `<name>.txt` per template in
    the templates directory, which is modelled as a map from file name to
    contents; a directory listing is the sequence of its file names. */
module Templates {
  import opened Wrappers
  import opened JsString

  const TemplateSuffix: string := ".txt"

  /** The file a template is stored in. */
  function TemplateFile(name: string): (f: string)
    ensures |f| == |name| + |TemplateSuffix| && f[..|name|] == name && EndsWith(f, TemplateSuffix)
  {
    EndsWithConcat(name, TemplateSuffix);
    name + TemplateSuffix
  }

  /** `saveTemplate`: the file is written with the message as it is; every
      other file keeps its contents. */
  function SaveTemplate(dir: map<string, string>, name: string, message: string): (d: map<string, string>)
    ensures d.Keys == dir.Keys + {TemplateFile(name)}
    ensures d[TemplateFile(name)] == message
    ensures forall f :: f in dir && f != TemplateFile(name) ==> d[f] == dir[f]
  {
    dir[TemplateFile(name) := message]
  }

  /** `loadTemplate`: the trimmed contents of the template's file, or the
      not-found error when there is no such file. */
  function LoadTemplate(dir: map<string, string>, name: string): (r: Result<string>)
    ensures r.Ok? <==> TemplateFile(name) in dir
    ensures r.Ok? ==> r.value == Trim(dir[TemplateFile(name)])
    ensures r.Err? ==> r.message == "Template \"" + name + "\" not found"
  {
    if TemplateFile(name) in dir then Ok(Trim(dir[TemplateFile(name)]))
    else Err("Template \"" + name + "\" not found")
  }

  /** Loading a template just saved gives the saved message, trimmed. */
  lemma SaveThenLoad(dir: map<string, string>, name: string, message: string)
    ensures LoadTemplate(SaveTemplate(dir, name, message), name) == Ok(Trim(message))
  {
  }

  /** `s.indexOf(t)`: the first index at which `t` occurs. */
  function IndexOf(s: string, t: string): (r: Option<nat>)
    ensures r.Some? ==> OccursAt(s, t, r.value) && forall j :: 0 <= j < r.value ==> !OccursAt(s, t, j)
    ensures r.None? ==> forall j :: 0 <= j <= |s| ==> !OccursAt(s, t, j)
    decreases |s|
  {
    if |t| > |s| then None
    else if s[..|t|] == t then Some(0)
    else
      assert !OccursAt(s, t, 0);
      match IndexOf(s[1..], t)
      case None =>
        assert forall j :: 1 <= j <= |s| ==> !OccursAt(s, t, j) by {
          forall j | 1 <= j <= |s| ensures !OccursAt(s, t, j) { OccursShift(s, t, j); }
        }
        None
      case Some(i) =>
        OccursShift(s, t, i + 1);
        assert forall j :: 1 <= j < i + 1 ==> !OccursAt(s, t, j) by {
          forall j | 1 <= j < i + 1 ensures !OccursAt(s, t, j) { OccursShift(s, t, j); }
        }
        Some(i + 1)
  }

  lemma OccursShift(s: string, t: string, j: nat)
    requires 1 <= j <= |s|
    ensures OccursAt(s, t, j) <==> OccursAt(s[1..], t, j - 1)
  {
    if j <= |s| - |t| {
      var here := s[j..j + |t|];
      var there := s[1..][j - 1..j - 1 + |t|];
      forall m | 0 <= m < |t| ensures here[m] == there[m] {
        assert here[m] == s[j + m];
      }
      assert here == there;
    }
  }

  /** `s.replace(t, r)` with a string pattern: only the first occurrence is
      replaced. */
  function ReplaceFirst(s: string, t: string, r: string): string
  {
    match IndexOf(s, t)
    case None => s
    case Some(i) => s[..i] + r + s[i + |t|..]
  }

  /** The names `listTemplates` reports for a listing, as the source
      computes them: each file name ending in `.txt`, in listing order, with
      its FIRST `.txt` removed. */
  function TemplateNamesAsWritten(files: seq<string>): seq<string>
  {
    if files == [] then []
    else (if EndsWith(files[0], TemplateSuffix) then [ReplaceFirst(files[0], TemplateSuffix, "")] else [])
         + TemplateNamesAsWritten(files[1..])
  }

  /** A template saved as `a.txtb` is stored in `a.txtb.txt`, listed as
      `ab.txt`, and cannot be loaded under the listed name. */
  lemma ListedNameNotLoadable(dir: map<string, string>)
    ensures SaveTemplate(dir, "a.txtb", "m").Keys >= {"a.txtb.txt"}
    ensures TemplateNamesAsWritten(["a.txtb.txt"]) == ["ab.txt"]
    ensures ListTemplates(Some(["a.txtb.txt"])) == ["ab.txt"]
    ensures "ab.txt.txt" !in dir ==> LoadTemplate(SaveTemplate(dir, "a.txtb", "m"), "ab.txt").Err?
  {
    assert TemplateFile("a.txtb") == "a.txtb.txt";
    var f := "a.txtb.txt";
    FirstSuffixInsideName();
    assert TemplateNamesAsWritten([f]) == [ReplaceFirst(f, TemplateSuffix, "")] + TemplateNamesAsWritten([]);
    assert TemplateFile("ab.txt") == "ab.txt.txt";
  }

  /** In "a.txtb.txt" the first ".txt" is the one inside the name. */
  lemma FirstSuffixInsideName()
    ensures EndsWith("a.txtb.txt", TemplateSuffix)
    ensures IndexOf("a.txtb.txt", TemplateSuffix) == Some(1)
    ensures ReplaceFirst("a.txtb.txt", TemplateSuffix, "") == "ab.txt"
  {
    var f := "a.txtb.txt";
    assert EndsWith(f, TemplateSuffix) by { assert f[6..] == ".txt"; }
    assert f[1..][..4] == ".txt";
    assert IndexOf(f[1..], TemplateSuffix) == Some(0);
    assert f[..4] != ".txt" by { assert f[0] != '.'; }
    assert IndexOf(f, TemplateSuffix) == Some(1);
    assert ReplaceFirst(f, TemplateSuffix, "") == f[..1] + "" + f[5..];
    assert f[..1] + "" + f[5..] == "ab.txt";
  }

  /** The names listed for a listing: each file name ending in `.txt`, in
      listing order, with that suffix removed. */
  function TemplateNames(files: seq<string>): (names: seq<string>)
    ensures |names| <= |files|
  {
    if files == [] then []
    else (if EndsWith(files[0], TemplateSuffix) then [files[0][..|files[0]| - |TemplateSuffix|]] else [])
         + TemplateNames(files[1..])
  }

  /** A name is listed exactly when its template file is in the listing. */
  lemma {:induction false} ListedIffStored(files: seq<string>, name: string)
    ensures name in TemplateNames(files) <==> TemplateFile(name) in files
  {
    if files != [] {
      ListedIffStored(files[1..], name);
      var f := files[0];
      if EndsWith(f, TemplateSuffix) {
        var stem := f[..|f| - |TemplateSuffix|];
        assert f == stem + TemplateSuffix;
        assert name == stem <==> TemplateFile(name) == f;
      } else {
        assert TemplateFile(name) != f;
      }
      assert files == [f] + files[1..];
    }
  }

  /** Every listed name loads: a listing of the templates directory names
      only templates that `loadTemplate` finds. */
  lemma ListedNamesLoad(dir: map<string, string>, files: seq<string>, name: string)
    requires forall f :: f in files ==> f in dir
    requires name in TemplateNames(files)
    ensures LoadTemplate(dir, name).Ok?
  {
    ListedIffStored(files, name);
  }

  /** No `.txt` occurs in `f` except, perhaps, as its suffix. */
  predicate SuffixFirst(f: string)
  {
    match IndexOf(f, TemplateSuffix)
    case None => true
    case Some(i) => i + |TemplateSuffix| >= |f|
  }

  /** Where no `.txt` occurs before the suffix, the source's first-occurrence
      replacement is the suffix removal. */
  lemma AsWrittenAgrees(files: seq<string>)
    requires forall f :: f in files ==> SuffixFirst(f)
    ensures TemplateNamesAsWritten(files) == TemplateNames(files)
  {
    if files != [] {
      StripAgrees(files[0]);
      assert forall f :: f in files[1..] ==> f in files;
      AsWrittenAgrees(files[1..]);
    }
  }

  /** For one file name ending in `.txt` whose first `.txt` is its suffix,
      removing the first occurrence is removing the suffix. */
  lemma StripAgrees(f: string)
    requires SuffixFirst(f)
    ensures EndsWith(f, TemplateSuffix) ==> ReplaceFirst(f, TemplateSuffix, "") == f[..|f| - |TemplateSuffix|]
  {
    if EndsWith(f, TemplateSuffix) {
      var n := |f| - |TemplateSuffix|;
      assert OccursAt(f, TemplateSuffix, n);
      match IndexOf(f, TemplateSuffix)
      case Some(i) =>
        assert i == n;
        assert f[..i] + "" + f[i + |TemplateSuffix|..] == f[..n];
      case None =>
    }
  }

  /** A name is listed, as the source computes the listing, exactly when
      it is some file name ending in `.txt` with its first `.txt` removed. */
  lemma {:induction false} ListedAsWritten(files: seq<string>, n: string)
    ensures n in TemplateNamesAsWritten(files)
            <==> exists f :: f in files && EndsWith(f, TemplateSuffix) && n == ReplaceFirst(f, TemplateSuffix, "")
  {
    if files != [] {
      ListedAsWritten(files[1..], n);
      assert files == [files[0]] + files[1..];
      assert forall f :: f in files <==> f == files[0] || f in files[1..];
    }
  }

  /** Where no file name has `.txt` before its end, the source's listing
      names exactly the stored templates. */
  lemma AsWrittenIffStored(files: seq<string>)
    ensures (forall f :: f in files ==> SuffixFirst(f)) ==>
              forall n :: n in TemplateNamesAsWritten(files) <==> TemplateFile(n) in files
  {
    if forall f :: f in files ==> SuffixFirst(f) {
      AsWrittenAgrees(files);
      forall n ensures n in TemplateNames(files) <==> TemplateFile(n) in files {
        ListedIffStored(files, n);
      }
    }
  }

  /** `listTemplates`: the names of the directory's listing as the source
      computes them, or no names when the directory cannot be read. Each
      listed name comes from a `.txt` file with its first `.txt` removed;
      where no file name has `.txt` before its end, these are exactly the
      names whose template file is in the listing. */
  function ListTemplates(listing: Option<seq<string>>): (names: seq<string>)
    ensures listing.None? ==> names == []
    ensures listing.Some? ==> forall n :: n in names <==>
              exists f :: f in listing.value && EndsWith(f, TemplateSuffix) && n == ReplaceFirst(f, TemplateSuffix, "")
    ensures listing.Some? && (forall f :: f in listing.value ==> SuffixFirst(f)) ==>
              forall n :: n in names <==> TemplateFile(n) in listing.value
  {
    match listing
    case None => []
    case Some(files) =>
      forall n ensures n in TemplateNamesAsWritten(files) <==>
          exists f :: f in files && EndsWith(f, TemplateSuffix) && n == ReplaceFirst(f, TemplateSuffix, "") {
        ListedAsWritten(files, n);
      }
      AsWrittenIffStored(files);
      TemplateNamesAsWritten(files)
  }

  /** The corrected `listTemplates`: the names whose template file is in
      the listing, or no names when the directory cannot be read. */
  function ListTemplatesBySuffix(listing: Option<seq<string>>): (names: seq<string>)
    ensures listing.None? ==> names == []
    ensures listing.Some? ==> forall n :: n in names <==> TemplateFile(n) in listing.value
  {
    match listing
    case None => []
    case Some(files) =>
      forall n ensures n in TemplateNames(files) <==> TemplateFile(n) in files {
        ListedIffStored(files, n);
      }
      TemplateNames(files)
  }
}
