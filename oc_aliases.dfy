/**
 * `create_oc_aliases.py`: appends an `oc login` alias and a `skopeo login`
 * alias to both aliases files, each only when the file lacks it.
 */
module OcAliases {

  import opened Wrappers
  import opened Text
  import opened FileSystem

  const Marker := "\n# Alias gerado automaticamente\n"
  const OcAliasStart := "alias oc-login='oc login -u "
  const SkopeoAliasStart := "alias skopeo-login='skopeo login -u "

  /** The alias of line 27. */
  function OcAlias(user: string, server: string): string {
    OcAliasStart + user + (" --server=" + server + "'")
  }

  /** The alias of line 32. */
  function SkopeoAlias(user: string, registry: string): string {
    SkopeoAliasStart + user + (" -p \"$(oc whoami -t)\" " + registry + "'")
  }

  /**
   * The file's text after `append_alias(path, line)`, from its text before
   * (`None`: the file does not exist yet).
   */
  function AliasAppended(content: Option<string>, line: string): (r: string)
    ensures Contains(r, line)
    ensures IsPrefix(content.GetOr(""), r)
    ensures content.Some? && Contains(content.value, line) ==> r == content.value
    ensures content.None? || !Contains(content.value, line) ==> r == content.GetOr("") + Marker + line + "\n"
  {
    if content.None? || !Contains(content.value, line) then
      OccursBetween(content.GetOr("") + Marker, line, "\n");
      content.GetOr("") + Marker + line + "\n"
    else content.value
  }

  /** A second `append_alias` with the same line changes nothing. */
  lemma AppendAliasIdempotent(content: Option<string>, line: string)
    ensures AliasAppended(Some(AliasAppended(content, line)), line) == AliasAppended(content, line)
  {
  }

  /** `append_alias(path, line)` on the files. */
  method AppendAlias(h: Home, path: string, line: string)
    modifies h
    ensures h.files == old(h.files)[path := AliasAppended(Lookup(old(h.files), path), line)]
  {
    if path !in h.files || !Contains(h.files[path], line) {
      h.AppendText(path, Marker + line + "\n");
      assert h.Read(path) == old(h.Read(path)) + Marker + line + "\n";
    }
  }

  function WithAlias(files: map<string, string>, path: string, line: string): map<string, string> {
    files[path := AliasAppended(Lookup(files, path), line)]
  }

  /** The files after the loop of lines 34-36 has handled `paths`. */
  function AliasesAdded(files: map<string, string>, paths: seq<string>, oc: string, skopeo: string)
    : map<string, string>
  {
    if paths == [] then files
    else
      var prev := AliasesAdded(files, paths[..|paths| - 1], oc, skopeo);
      var path := paths[|paths| - 1];
      WithAlias(WithAlias(prev, path, oc), path, skopeo)
  }

  /** The alias-writing part of `main`, with the four answers as parameters. */
  method CreateOcAliases(h: Home, ocUser: string, ocServer: string, regUser: string, regServer: string)
    modifies h
    ensures h.files == AliasesAdded(old(h.files), [ZshAliases(h.root), BashAliases(h.root)],
                                    OcAlias(ocUser, ocServer), SkopeoAlias(regUser, regServer))
  {
    var oc := OcAlias(ocUser, ocServer);
    var skopeo := SkopeoAlias(regUser, regServer);
    var paths := [ZshAliases(h.root), BashAliases(h.root)];
    var i := 0;
    while i < |paths|
      invariant 0 <= i <= |paths|
      invariant h.files == AliasesAdded(old(h.files), paths[..i], oc, skopeo)
    {
      AppendAlias(h, paths[i], oc);
      AppendAlias(h, paths[i], skopeo);
      assert paths[..i + 1][..i] == paths[..i];
      i := i + 1;
    }
    assert paths[..i] == paths;
  }

  /** Each aliases file gets the oc alias first and then the skopeo alias; nothing else changes. */
  lemma BothFilesGetBothAliases(files: map<string, string>, root: string, oc: string, skopeo: string)
    ensures var r := AliasesAdded(files, [ZshAliases(root), BashAliases(root)], oc, skopeo);
            && ZshAliases(root) in r && BashAliases(root) in r
            && r[ZshAliases(root)]
               == AliasAppended(Some(AliasAppended(Lookup(files, ZshAliases(root)), oc)), skopeo)
            && r[BashAliases(root)]
               == AliasAppended(Some(AliasAppended(Lookup(files, BashAliases(root)), oc)), skopeo)
            && forall path | path != ZshAliases(root) && path != BashAliases(root) ::
                 (path in r <==> path in files) && (path in files ==> r[path] == files[path])
  {
    var z, b := ZshAliases(root), BashAliases(root);
    PathsDistinct(root);
    AliasesAddedPair(files, z, b, oc, skopeo);
    var f1 := WithAlias(files, z, oc);
    var f2 := WithAlias(f1, z, skopeo);
    var f3 := WithAlias(f2, b, oc);
    WithAliasFrame(files, z, oc);
    WithAliasFrame(f1, z, skopeo);
    WithAliasFrame(f2, b, oc);
    WithAliasFrame(f3, b, skopeo);
  }

  /** The loop's result for two paths, written out. */
  lemma AliasesAddedPair(files: map<string, string>, z: string, b: string, oc: string, skopeo: string)
    ensures AliasesAdded(files, [z, b], oc, skopeo)
         == WithAlias(WithAlias(WithAlias(WithAlias(files, z, oc), z, skopeo), b, oc), b, skopeo)
  {
    var paths := [z, b];
    assert paths[..|paths| - 1] == [z];
    assert [z][..0] == [];
    assert AliasesAdded(files, [z], oc, skopeo) == WithAlias(WithAlias(files, z, oc), z, skopeo);
  }

  /** `append_alias` on one path leaves every other path as it was. */
  lemma WithAliasFrame(files: map<string, string>, path: string, line: string)
    ensures var r := WithAlias(files, path, line);
            && path in r && r[path] == AliasAppended(Lookup(files, path), line)
            && forall q | q != path ::
                 (q in r <==> q in files) && (q in files ==> r[q] == files[q]) && Lookup(r, q) == Lookup(files, q)
  {
  }

  /**
   * In a file holding neither alias, the oc alias and then the skopeo alias
   * are appended, each after the marker comment.
   */
  lemma AppendedInOrder(content: Option<string>, oc: string, skopeo: string)
    requires !Contains(content.GetOr(""), oc) && !Contains(content.GetOr(""), skopeo)
    requires '\n' !in skopeo && |skopeo| > |Marker| && !Contains(oc, skopeo)
    ensures AliasAppended(Some(AliasAppended(content, oc)), skopeo)
         == content.GetOr("") + Marker + oc + "\n" + Marker + skopeo + "\n"
  {
    var c := content.GetOr("");
    var once := AliasAppended(content, oc);
    assert once == c + Marker + oc + "\n";
    NoNewlineJoin(c + Marker + oc, "\n", skopeo);
    assert (c + Marker)[|c + Marker| - 1] == Marker[|Marker| - 1] == '\n';
    NoNewlineJoin(c + Marker, oc, skopeo);
    NoNewlineJoin(c, Marker, skopeo);
    assert !Contains(once, skopeo);
  }

  /** `pat` has no newline and neither side holds it, so the join at a newline after or before does not either. */
  lemma NoNewlineJoin(a: string, b: string, pat: string)
    requires '\n' !in pat
    requires (a != [] && a[|a| - 1] == '\n') || (b != [] && b[0] == '\n')
    ensures Contains(a + b, pat) ==> Contains(a, pat) || Contains(b, pat)
  {
    if Contains(a + b, pat) {
      SplitAtSeam(a, b, pat);
    }
  }

  lemma OcAliasInjective(u1: string, s1: string, u2: string, s2: string)
    requires ' ' !in u1 && ' ' !in u2
    requires OcAlias(u1, s1) == OcAlias(u2, s2)
    ensures u1 == u2 && s1 == s2
  {
    UserThenRest(OcAliasStart, u1, " --server=" + s1 + "'", u2, " --server=" + s2 + "'");
    assert s1 == (" --server=" + s1 + "'")[10..|s1| + 10];
    assert s2 == (" --server=" + s2 + "'")[10..|s2| + 10];
  }

  lemma SkopeoAliasInjective(u1: string, r1: string, u2: string, r2: string)
    requires ' ' !in u1 && ' ' !in u2
    requires SkopeoAlias(u1, r1) == SkopeoAlias(u2, r2)
    ensures u1 == u2 && r1 == r2
  {
    var mid := " -p \"$(oc whoami -t)\" ";
    UserThenRest(SkopeoAliasStart, u1, mid + r1 + "'", u2, mid + r2 + "'");
    assert r1 == (mid + r1 + "'")[|mid|..|mid| + |r1|];
    assert r2 == (mid + r2 + "'")[|mid|..|mid| + |r2|];
  }

  /** A space-free word followed by text that starts with a space can be read back. */
  lemma UserThenRest(start: string, u1: string, rest1: string, u2: string, rest2: string)
    requires ' ' !in u1 && ' ' !in u2
    requires rest1 != [] && rest1[0] == ' ' && rest2 != [] && rest2[0] == ' '
    requires start + u1 + rest1 == start + u2 + rest2
    ensures u1 == u2 && rest1 == rest2
  {
    var line := start + u1 + rest1;
    assert line[|start| + |u1|] == ' ';
    assert (start + u2 + rest2)[|start| + |u2|] == ' ';
    assert |u1| == |u2|;
    assert u1 == line[|start|..|start| + |u1|];
    assert u2 == (start + u2 + rest2)[|start|..|start| + |u2|];
    assert rest1 == line[|start| + |u1|..];
    assert rest2 == (start + u2 + rest2)[|start| + |u2|..];
  }
}
