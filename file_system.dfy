/**
 * The text files under the user's home directory that the scripts read and
 * write, as a map from path to contents; a path outside the map is a file
 * that does not exist.
 */
module FileSystem {

  import opened Wrappers

  /** `p.read_text() if p.exists() else ""`. */
  function ReadOrEmpty(files: map<string, string>, path: string): string {
    if path in files then files[path] else ""
  }

  /** The file's text, or `None` when it does not exist. */
  function Lookup(files: map<string, string>, path: string): Option<string> {
    if path in files then Some(files[path]) else None
  }

  class Home {
    /** `Path.home()`. */
    const root: string
    var files: map<string, string>

    constructor (root: string, files: map<string, string>)
      ensures this.root == root && this.files == files
    {
      this.root := root;
      this.files := files;
    }

    function Read(path: string): string
      reads this
    {
      ReadOrEmpty(files, path)
    }

    /** `path.write_text(text)`: creates or overwrites the file. */
    method WriteText(path: string, text: string)
      modifies this
      ensures files == old(files)[path := text]
    {
      files := files[path := text];
    }

    /** `open(path, "a").write(text)`: creates a missing file, then appends. */
    method AppendText(path: string, text: string)
      modifies this
      ensures files == old(files)[path := old(Read(path)) + text]
    {
      files := files[path := Read(path) + text];
    }
  }

  /** The files the two scripts touch, relative to the home directory. */
  function ZshAliases(root: string): string { root + "/.zsh_aliases" }
  function BashAliases(root: string): string { root + "/.bash_aliases" }
  function ZshRc(root: string): string { root + "/.zshrc" }
  function BashRc(root: string): string { root + "/.bashrc" }

  /** The four paths are pairwise different, whatever the home directory. */
  lemma PathsDistinct(root: string)
    ensures ZshAliases(root) != BashAliases(root) && ZshAliases(root) != ZshRc(root)
    ensures ZshAliases(root) != BashRc(root) && BashAliases(root) != ZshRc(root)
    ensures BashAliases(root) != BashRc(root) && ZshRc(root) != BashRc(root)
  {
  }
}
