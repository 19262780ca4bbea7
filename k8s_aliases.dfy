/**
 * The commands of `manage_k8s_aliases.py` as operations on the saved profile
 * store and on the user's shell files.
 */
module K8sAliases {

  import opened Wrappers
  import opened Text
  import opened Profiles
  import opened ManagedBlock
  import opened ShellBlock
  import opened FileSystem

  /** `~/.config/k8s-aliases/profiles.json`; its JSON text is abstracted to `ConfFile`. */
  class ProfileFile {
    var content: ConfFile

    constructor (content: ConfFile)
      ensures this.content == content
    {
      this.content := content;
    }
  }

  /** `load_profiles()`. */
  method LoadProfiles(f: ProfileFile) returns (cfg: Config)
    ensures fresh(cfg) && cfg.Valid() && cfg.Snapshot() == Loaded(f.content)
  {
    cfg := new Config(Loaded(f.content));
  }

  /** `save_profiles(cfg)`. */
  method SaveProfiles(f: ProfileFile, cfg: Config)
    requires cfg.Valid()
    modifies f
    ensures f.content == Parsed(cfg.Snapshot())
  {
    f.content := Parsed(cfg.Snapshot());
  }

  /** `upsert_profile(p)`: load, insert or replace, save. */
  method UpsertProfile(f: ProfileFile, p: Profile)
    modifies f
    ensures f.content == Parsed(Upserted(Loaded(old(f.content)), p))
  {
    var cfg := LoadProfiles(f);
    cfg.Upsert(p);
    SaveProfiles(f, cfg);
  }

  /** `remove_profile(n)`: an absent name saves nothing. */
  method RemoveProfile(f: ProfileFile, n: string) returns (removed: bool)
    modifies f
    ensures removed <==> n in Loaded(old(f.content)).profiles
    ensures removed ==> f.content == Parsed(Removed(Loaded(old(f.content)), n))
    ensures !removed ==> f.content == old(f.content)
  {
    var cfg := LoadProfiles(f);
    if n in cfg.profiles {
      cfg.Delete(n);
      SaveProfiles(f, cfg);
      removed := true;
    } else {
      removed := false;
    }
  }

  /** `set_default(n)`: an absent name saves nothing. */
  method SetDefault(f: ProfileFile, n: string) returns (changed: bool)
    modifies f
    ensures changed <==> n in Loaded(old(f.content)).profiles
    ensures changed ==> f.content == Parsed(WithDefault(Loaded(old(f.content)), n))
    ensures !changed ==> f.content == old(f.content)
  {
    var cfg := LoadProfiles(f);
    if n !in cfg.profiles {
      return false;
    }
    cfg.SetDefaultName(n);
    SaveProfiles(f, cfg);
    changed := true;
  }

  // ---------------------------------------------------------------------
  // Shell files

  /** `write_managed_block(path, block)`: replaces the file with the spliced text. */
  method WriteManagedBlock(h: Home, path: string, block: string)
    modifies h
    ensures h.files == old(h.files)[path := Splice(old(h.Read(path)), block)]
  {
    var text := h.Read(path);
    var updated := Splice(text, block);
    h.WriteText(path, updated);
  }

  /** The line that makes an rc file source an aliases file (line 39). */
  function SourceLine(aliases: string): string {
    "[ -f \"" + aliases + "\" ] && source \"" + aliases + "\""
  }

  /** The rc text after `ensure_rc_sources` looked at it for `line`. */
  function WithSourceLine(content: string, line: string): (r: string)
    ensures Contains(r, line)
    ensures IsPrefix(content, r)
    ensures Contains(content, line) ==> r == content
    ensures !Contains(content, line) ==> r == content + "\n" + line + "\n"
  {
    if Contains(content, line) then content
    else
      OccursBetween(content + "\n", line, "\n");
      content + "\n" + line + "\n"
  }

  /** Sourcing twice changes nothing the first time did not. */
  lemma SourceLineIdempotent(content: string, line: string)
    ensures WithSourceLine(WithSourceLine(content, line), line) == WithSourceLine(content, line)
  {
  }

  function RcPairs(root: string): seq<(string, string)> {
    [(ZshRc(root), ZshAliases(root)), (BashRc(root), BashAliases(root))]
  }

  /** The files after the loop of `ensure_rc_sources` has handled `pairs`. */
  function Sourced(files: map<string, string>, pairs: seq<(string, string)>): map<string, string> {
    if pairs == [] then files
    else
      var prev := Sourced(files, pairs[..|pairs| - 1]);
      var (rc, al) := pairs[|pairs| - 1];
      prev[rc := WithSourceLine(ReadOrEmpty(prev, rc), SourceLine(al))]
  }

  /** One turn of the loop of `ensure_rc_sources`: append the line to `rc` when it is absent. */
  method SourceInto(h: Home, rc: string, line: string)
    requires line != ""
    modifies h
    ensures h.files == old(h.files)[rc := WithSourceLine(old(h.Read(rc)), line)]
  {
    var content := h.Read(rc);
    assert Contains("", line) ==> |line| == 0;
    if !Contains(content, line) {
      h.AppendText(rc, "\n" + line + "\n");
      assert content + ("\n" + line + "\n") == content + "\n" + line + "\n";
    } else {
      assert h.files[rc := content] == h.files;
    }
  }

  /** `ensure_rc_sources()`. */
  method EnsureRcSources(h: Home)
    modifies h
    ensures h.files == Sourced(old(h.files), RcPairs(h.root))
  {
    var pairs := RcPairs(h.root);
    var i := 0;
    while i < |pairs|
      invariant 0 <= i <= |pairs|
      invariant h.files == Sourced(old(h.files), pairs[..i])
    {
      var (rc, al) := pairs[i];
      SourceInto(h, rc, SourceLine(al));
      assert pairs[..i + 1][..i] == pairs[..i];
      i := i + 1;
    }
    assert pairs[..i] == pairs;
  }

  /**
   * After `ensure_rc_sources`, each rc file sources its aliases file; an rc
   * file that already did is untouched, and no other file changes.
   */
  lemma RcFilesSourceAliases(files: map<string, string>, root: string)
    ensures var r := Sourced(files, RcPairs(root));
            && ZshRc(root) in r && Contains(r[ZshRc(root)], SourceLine(ZshAliases(root)))
            && BashRc(root) in r && Contains(r[BashRc(root)], SourceLine(BashAliases(root)))
            && (Contains(ReadOrEmpty(files, ZshRc(root)), SourceLine(ZshAliases(root)))
                ==> r[ZshRc(root)] == ReadOrEmpty(files, ZshRc(root)))
            && (Contains(ReadOrEmpty(files, BashRc(root)), SourceLine(BashAliases(root)))
                ==> r[BashRc(root)] == ReadOrEmpty(files, BashRc(root)))
            && forall path | path != ZshRc(root) && path != BashRc(root) ::
                 (path in r <==> path in files) && (path in files ==> r[path] == files[path])
  {
    var pairs := RcPairs(root);
    PathsDistinct(root);
    var zsh := WithSourceLine(ReadOrEmpty(files, ZshRc(root)), SourceLine(ZshAliases(root)));
    var first := files[ZshRc(root) := zsh];
    assert pairs[..1][..0] == [];
    assert Sourced(files, pairs[..1]) == first;
    var bash := WithSourceLine(ReadOrEmpty(first, BashRc(root)), SourceLine(BashAliases(root)));
    assert ReadOrEmpty(first, BashRc(root)) == ReadOrEmpty(files, BashRc(root));
    assert pairs[..2][..1] == pairs[..1];
    assert pairs[..2] == pairs;
    assert Sourced(files, pairs) == first[BashRc(root) := bash];
  }

  /** The shell block rendered from a store, joined into text. */
  function RenderedBlock(s: Store): string
    requires s.WellFormed()
  {
    Join(BlockLines(s)) + "\n"
  }

  /** The files after `apply_aliases` with the store `s` and the files `files`. */
  function Applied(files: map<string, string>, root: string, s: Store): map<string, string>
    requires s.WellFormed()
  {
    var block := RenderedBlock(s);
    var zsh := files[ZshAliases(root) := Splice(ReadOrEmpty(files, ZshAliases(root)), block)];
    var both := zsh[BashAliases(root) := Splice(ReadOrEmpty(zsh, BashAliases(root)), block)];
    Sourced(both, RcPairs(root))
  }

  /** `apply_aliases()`: render once, splice into both aliases files, then source them. */
  method ApplyAliases(f: ProfileFile, h: Home)
    modifies h
    ensures h.files == Applied(old(h.files), h.root, Loaded(f.content))
  {
    var cfg := LoadProfiles(f);
    var block := RenderShellBlock(cfg);
    WriteManagedBlock(h, ZshAliases(h.root), block);
    WriteManagedBlock(h, BashAliases(h.root), block);
    EnsureRcSources(h);
  }

  /**
   * After `apply_aliases` both aliases files hold the rendered block, framed
   * by the markers, spliced into their previous text, and both rc files source them.
   */
  lemma ApplyInstallsBlock(files: map<string, string>, root: string, s: Store)
    requires s.WellFormed()
    ensures var r := Applied(files, root, s);
            && ZshAliases(root) in r && BashAliases(root) in r
            && r[ZshAliases(root)] == Splice(ReadOrEmpty(files, ZshAliases(root)), RenderedBlock(s))
            && r[BashAliases(root)] == Splice(ReadOrEmpty(files, BashAliases(root)), RenderedBlock(s))
            && ZshRc(root) in r && Contains(r[ZshRc(root)], SourceLine(ZshAliases(root)))
            && BashRc(root) in r && Contains(r[BashRc(root)], SourceLine(BashAliases(root)))
            && IsManagedBlock(RenderedBlock(s))
  {
    var block := RenderedBlock(s);
    var zsh := files[ZshAliases(root) := Splice(ReadOrEmpty(files, ZshAliases(root)), block)];
    var both := zsh[BashAliases(root) := Splice(ReadOrEmpty(zsh, BashAliases(root)), block)];
    PathsDistinct(root);
    RcFilesSourceAliases(both, root);
    RenderedIsManagedBlock(s);
  }

  // ---------------------------------------------------------------------
  // Command dispatch

  /** What `main` did besides changing files; console output is not modelled. */
  datatype Outcome = Ran | Listed | Checked | ShowedUsage(exitCode: nat) | Exited(exitCode: nat)

  /**
   * `main()` with the arguments after the program name. `prompted` stands for
   * what the interactive prompt of `add` yields: the profile it builds, or
   * `None` when the name typed is empty after stripping, where the prompt
   * exits with status 2 (lines 62-65).
   */
  method Dispatch(f: ProfileFile, h: Home, args: seq<string>, prompted: Option<Profile>) returns (o: Outcome)
    modifies f, h
    ensures args == [] ==> o == ShowedUsage(0) && f.content == old(f.content) && h.files == old(h.files)
    ensures args != [] && args[0] == "add" && prompted.None? ==>
              o == Exited(2) && f.content == old(f.content) && h.files == old(h.files)
    ensures args != [] && args[0] == "add" && prompted.Some? ==>
              && o == Ran
              && f.content == Parsed(Upserted(Loaded(old(f.content)), prompted.value))
              && h.files == Applied(old(h.files), h.root, Loaded(f.content))
    ensures args != [] && args[0] == "rm" && |args| >= 2 ==>
              && o == Ran
              && f.content == (if args[1] in Loaded(old(f.content)).profiles
                               then Parsed(Removed(Loaded(old(f.content)), args[1]))
                               else old(f.content))
              && h.files == Applied(old(h.files), h.root, Loaded(f.content))
    ensures args != [] && args[0] == "default" && |args| >= 2 ==>
              && o == Ran
              && f.content == (if args[1] in Loaded(old(f.content)).profiles
                               then Parsed(WithDefault(Loaded(old(f.content)), args[1]))
                               else old(f.content))
              && h.files == Applied(old(h.files), h.root, Loaded(f.content))
    ensures args != [] && args[0] == "apply" ==>
              o == Ran && f.content == old(f.content) && h.files == Applied(old(h.files), h.root, Loaded(f.content))
    ensures args != [] && args[0] == "list" ==> o == Listed && f.content == old(f.content) && h.files == old(h.files)
    ensures args != [] && args[0] == "check" ==> o == Checked && f.content == old(f.content) && h.files == old(h.files)
    ensures args != [] && args[0] !in {"add", "list", "apply", "check"}
            && !(args[0] in {"rm", "default"} && |args| >= 2) ==>
              o == ShowedUsage(2) && f.content == old(f.content) && h.files == old(h.files)
  {
    if args == [] {
      return ShowedUsage(0);
    }
    var cmd := args[0];
    if cmd == "add" {
      if prompted.None? {
        return Exited(2);
      }
      UpsertProfile(f, prompted.value);
      ApplyAliases(f, h);
      o := Ran;
    } else if cmd == "rm" && |args| >= 2 {
      var _ := RemoveProfile(f, args[1]);
      ApplyAliases(f, h);
      o := Ran;
    } else if cmd == "list" {
      o := Listed;
    } else if cmd == "default" && |args| >= 2 {
      var _ := SetDefault(f, args[1]);
      ApplyAliases(f, h);
      o := Ran;
    } else if cmd == "apply" {
      ApplyAliases(f, h);
      o := Ran;
    } else if cmd == "check" {
      o := Checked;
    } else {
      o := ShowedUsage(2);
    }
  }
}
