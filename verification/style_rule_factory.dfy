/** `StyleRuleFactory`: the namespace table the XPath processor is built
    from, and the filter that picks the workflow files out of a directory
    listing. Reading the directory is not modelled: the listing is an input. */
module StyleRuleFactory {
  import opened Seqs
  import opened Js
  import WorkflowsShouldNotContainCodeActivities

  const TargetPathMessage: string := "targetPath parameter is required and must be a string"

  /** `getXamlNamespaces()`: prefix to namespace URI. */
  function GetXamlNamespaces(): (namespaces: map<string, string>)
    ensures namespaces.Keys == {"xaml", "x", "sap2010"}
    ensures namespaces["xaml"] == "http://schemas.microsoft.com/netfx/2009/xaml/activities"
    ensures namespaces["x"] == "http://schemas.microsoft.com/winfx/2006/xaml"
    ensures namespaces["sap2010"] == "http://schemas.microsoft.com/netfx/2010/xaml/activities/presentation"
  {
    map[
      "xaml" := "http://schemas.microsoft.com/netfx/2009/xaml/activities",
      "x" := "http://schemas.microsoft.com/winfx/2006/xaml",
      "sap2010" := "http://schemas.microsoft.com/netfx/2010/xaml/activities/presentation"
    ]
  }

  /** The code-activity queries use a `ui` prefix that the table does not bind,
      next to the `xaml` prefix it does. */
  lemma UnboundPrefixInCodeQueries()
    ensures "ui" !in GetXamlNamespaces()
    ensures StartsWith(WorkflowsShouldNotContainCodeActivities.XpathMatchesSpecific[0].query[16..], "ui:")
    ensures StartsWith(WorkflowsShouldNotContainCodeActivities.XpathMatchesSpecific[2].query[16..], "xaml:")
  {
  }

  /** `path.basename` for the names a listing holds: everything after the
      last "/". A trailing "/", which `path.basename` would skip, is not. */
  function Basename(name: string): (base: string)
    ensures '/' !in base
    ensures EndsWith(name, base)
    ensures '/' !in name ==> base == name
  {
    var slash := LastIndexOf(name, '/');
    name[slash + 1..]
  }

  /** `path.extname(name)`: from the last dot of the last component to the
      end, except that a component with no dot, one whose only dot leads
      it, and ".." have no extension. */
  function Extname(name: string): (ext: string)
    ensures ext == "" || (ext[0] == '.' && EndsWith(name, ext) && |ext| < |Basename(name)|)
  {
    var base := Basename(name);
    var dot := LastIndexOf(base, '.');
    if dot <= 0 || base == ".." then "" else base[dot..]
  }

  /** The `getXamlFileList` filter: a ".xaml" extension, case included, and a
      last component not starting with "~" (the lock files the designer leaves). */
  predicate IsXamlFile(name: string) {
    Extname(name) == ".xaml" && !StartsWith(Basename(name), "~")
  }

  /** The filter in plain terms, for a directory entry (which has no "/"):
      longer than ".xaml" itself, ending in ".xaml", and not starting with "~". */
  lemma XamlFileIff(name: string)
    requires '/' !in name
    ensures IsXamlFile(name) <==> |name| > 5 && EndsWith(name, ".xaml") && name[0] != '~'
  {
    assert Basename(name) == name;
    var dot := LastIndexOf(name, '.');
    if |name| > 5 && EndsWith(name, ".xaml") {
      assert name[|name| - 5] == '.';
      assert forall j :: |name| - 5 < j < |name| ==> name[j] == ".xaml"[j - (|name| - 5)];
      assert dot == |name| - 5;
    }
    if Extname(name) == ".xaml" {
      assert dot > 0 && name[dot..] == ".xaml";
    }
  }

  /** Whether an entry passes depends on its last component alone, as both
      `path.extname` and `path.basename` look only at that component. */
  lemma FilterDecidedByLastComponent(name: string)
    ensures IsXamlFile(name) <==> IsXamlFile(Basename(name))
  {
    var base := Basename(name);
    assert Basename(base) == base;
    assert Extname(base) == Extname(name);
  }

  /** The entries of `listing` that pass the filter, in listing order. */
  function FilterXaml(listing: seq<string>): (kept: seq<string>)
    ensures Subsequence(kept, listing)
    ensures |kept| <= |listing|
    ensures forall n :: n in kept <==> n in listing && IsXamlFile(n)
  {
    if |listing| == 0 then []
    else
      var rest := FilterXaml(listing[1..]);
      assert forall n :: n in listing <==> n == listing[0] || n in listing[1..];
      if IsXamlFile(listing[0]) then
        [listing[0]] + rest
      else
        assert |rest| <= |listing[1..]|;
        rest
  }

  /** Filtering the kept entries again keeps all of them. */
  lemma {:induction false} FilterXamlIdempotent(listing: seq<string>)
    ensures FilterXaml(FilterXaml(listing)) == FilterXaml(listing)
    decreases |listing|
  {
    if |listing| != 0 {
      FilterXamlIdempotent(listing[1..]);
    }
  }

  /** `getXamlFileList(targetPath)` over the listing of that directory: the
      path must be a non-empty string; the answer is the filtered listing. */
  function GetXamlFileList(targetPath: Value, listing: seq<string>): (r: Result<seq<string>>)
    ensures r.Ok? <==> targetPath.Str? && |targetPath.s| != 0
    ensures r.Throw? ==> r.error == TypeError(TargetPathMessage)
    ensures r.Ok? ==> Subsequence(r.value, listing)
    ensures r.Ok? ==> forall n :: n in r.value <==> n in listing && IsXamlFile(n)
  {
    var _ :- RequireString(targetPath, TargetPathMessage);
    Ok(FilterXaml(listing))
  }

  /** A directory entry made of a non-empty stem and ".xaml" is kept unless
      the stem starts with "~". */
  lemma XamlNameKept(stem: string)
    requires '/' !in stem && |stem| != 0
    ensures IsXamlFile(stem + ".xaml") <==> stem[0] != '~'
  {
    var name := stem + ".xaml";
    assert '/' !in name by {
      assert forall j :: |stem| <= j < |name| ==> name[j] == ".xaml"[j - |stem|];
    }
    assert name[|stem|..] == ".xaml";
    XamlFileIff(name);
  }

  /** An ordinary workflow file is kept. */
  lemma FilterKeepsWorkflow()
    ensures IsXamlFile("Main.xaml")
  {
    assert "Main" + ".xaml" == "Main.xaml";
    XamlNameKept("Main");
  }

  /** The last component of an entry inside a directory is the entry's own name. */
  lemma BasenameOfNested(dir: string, file: string)
    requires '/' !in file
    ensures Basename(dir + "/" + file) == file
  {
    var name := dir + "/" + file;
    var slash := LastIndexOf(name, '/');
    assert name[|dir|] == '/';
    assert forall j :: |dir| < j < |name| ==> name[j] == file[j - |dir| - 1];
    assert slash == |dir|;
    assert name[slash + 1..] == file;
  }

  /** The designer's "~" lock copies are dropped, whether listed on their own
      or inside a directory. */
  lemma LockFilesDropped(dir: string, file: string)
    requires '/' !in file && |file| != 0 && file[0] == '~'
    ensures !IsXamlFile(file)
    ensures !IsXamlFile(dir + "/" + file)
  {
    BasenameOfNested(dir, file);
    assert Basename(file) == file;
    assert StartsWith(file, "~");
  }

  /** "~Main.xaml" is dropped. */
  lemma FilterDropsLockFile()
    ensures !IsXamlFile("~Main.xaml")
    ensures !IsXamlFile("dir" + "/" + "~Main.xaml")
  {
    var file := "~Main.xaml";
    assert file[..5] == "~Main" && file[5..] == ".xaml";
    assert '/' !in file by {
      assert '/' !in "~Main" && '/' !in ".xaml";
    }
    LockFilesDropped("dir", file);
  }

  /** The extension is compared case-sensitively. */
  lemma FilterDropsOtherCase()
    ensures !IsXamlFile("Main.XAML")
  {
    var name := "Main.XAML";
    assert name == ['M', 'a', 'i', 'n', '.', 'X', 'A', 'M', 'L'];
    assert '/' !in name;
    XamlFileIff(name);
    assert name[5] != 'x';
  }

  /** A name that is only ".xaml" has no extension at all. */
  lemma FilterDropsHidden()
    ensures !IsXamlFile(".xaml")
  {
    var name := ".xaml";
    assert name == ['.', 'x', 'a', 'm', 'l'];
    assert '/' !in name;
    XamlFileIff(name);
  }
}
