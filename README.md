# openshift-cli-installer: Kubernetes profile and alias manager, in Dafny

The repository has two kinds of scripts. The installers download `oc`, `kubectl` and related
tools. Two helper scripts write shell aliases:

- `manage_k8s_aliases.py` keeps a store of cluster *profiles* in
  `~/.config/k8s-aliases/profiles.json`. Each profile holds a name, API server,
  default user, TLS-skip flag, kubeconfig path and an optional ArgoCD server.
  From that store the script renders a POSIX shell block of login helpers. It
  splices that block, between two sentinel comment lines, into `~/.zsh_aliases`
  and `~/.bash_aliases`. It then makes sure `~/.zshrc` and `~/.bashrc` source
  those files.
- `create_oc_aliases.py` appends an `oc login` alias and a `skopeo login` alias to
  both aliases files, each only when the file lacks it.

This project models those two scripts and proves what they promise.

`install.py` and `install_oc.py` fetch archives with `urlretrieve` and unpack
them with `tarfile.extractall`. They check no digest and do not restrict the
paths in the archive. They hold no logic beyond that I/O, so they are left out
(see below).

Modules, one per concern of the source:

| module | file | models |
|---|---|---|
| `Wrappers` | wrappers.dfy | `Option` |
| `Text` | text.dfy | the Python string operations the scripts use: the `in` test, `split(sep)[0]`, `split(sep)[-1]`, `rstrip`, `strip() == ""` and `"\n".join` |
| `HostPort` | host_port.dfy | `parse_host_port_from_url` |
| `Profiles` | profiles.dfy | the profile store: the saved value `Store`, the loader fallback, and the in-memory dict `Config` whose methods change it in place |
| `ManagedBlock` | managed_block.dfy | the text splice of `write_managed_block` |
| `ShellBlock` | shell_block.dfy | `render_shell_block`, as a loop over the profiles |
| `FileSystem` | file_system.dfy | the home directory's text files (`Home`) and the four paths |
| `K8sAliases` | k8s_aliases.dfy | the commands of `manage_k8s_aliases.py` (load, save, upsert, remove, set default, write block, rc sourcing, apply, `main` dispatch) |
| `OcAliases` | oc_aliases.dfy | `append_alias` and the alias loop of `create_oc_aliases.py` |

Python's dict keeps insertion order, and `remove_profile` relies on that order.
So a store is both a `map` and the sequence of its keys in insertion order.
JSON text is abstracted away: the profile file is `Missing`, `Unparsable`, or
`Parsed` with a store.

## Model

| member | source | states |
|---|---|---|
| Profiles.Loaded | manage_k8s_aliases.py:26-32 | A missing or unparsable profile file loads as the empty store: no default, no profiles, no keys. A parsed file loads as exactly its store. |
| Profiles.Upserted | manage_k8s_aliases.py:84-88 | The profile is stored under its name. Every other entry is unchanged. A new name goes at the end of the key order; a known name keeps its place. The default becomes the name only when the old default was not truthy; otherwise it is unchanged. |
| Profiles.Removed | manage_k8s_aliases.py:92-97 | An absent name leaves the store unchanged. A present name leaves the map and the key order, and every other entry is unchanged. If it was the default, the new default is the first remaining key in insertion order, or None when no profile is left. Otherwise the default is unchanged. |
| Profiles.WithDefault | manage_k8s_aliases.py:103-107 | A present name becomes the default. An absent name leaves the default as it was. Profiles and key order never change. |
| Profiles.Without | manage_k8s_aliases.py:95-97 | Deleting a key from the insertion order: the key is gone, all other keys remain, there are still no duplicates, the length drops by one, and the first element is the first key other than the deleted one. |
| Profiles.EmptyIsConsistent | manage_k8s_aliases.py:32 | The fallback store is consistent: the default is None exactly when there are no profiles, and otherwise names a stored profile. |
| Profiles.UpsertKeepsConsistent | manage_k8s_aliases.py:84-88 | Upsert keeps a consistent store consistent. |
| Profiles.RemoveKeepsConsistent | manage_k8s_aliases.py:92-97 | Remove keeps a consistent store consistent. The new default is a remaining profile, or None when the map is empty. |
| Profiles.SetDefaultKeepsConsistent | manage_k8s_aliases.py:103-107 | Setting the default keeps a consistent store consistent. |
| Profiles.UpsertIdempotent | manage_k8s_aliases.py:84-88 | Upserting the same profile twice gives the same store as once. |
| Profiles.UpsertThenRemove | manage_k8s_aliases.py:84-97 | Adding a new profile and then removing it restores the original consistent store, provided the default is not the empty string. |
| Profiles.Config.constructor | manage_k8s_aliases.py:29 | The dict produced from a saved store holds exactly that store. |
| Profiles.Config.Upsert | manage_k8s_aliases.py:86-88 | The in-place assignment and default rule turn the dict's store into `Upserted` of the old store. |
| Profiles.Config.Delete | manage_k8s_aliases.py:95-97 | The in-place `del` and default update turn the dict's store into `Removed` of the old store. |
| Profiles.Config.SetDefaultName | manage_k8s_aliases.py:107 | The default becomes the name. Keys and profiles are untouched. |
| HostPort.SchemeLength | manage_k8s_aliases.py:56 | The `^https?://` prefix has length 8 exactly when the URL starts with `https://`, 7 exactly when it starts with `http://`, and 0 otherwise. |
| HostPort.HostSpan | manage_k8s_aliases.py:56 | The greedy `[^/:]+` group: every character in the span is neither `/` nor `:`, and the next character (if any) is one of them. |
| HostPort.DigitSpan | manage_k8s_aliases.py:56 | The greedy `\d+` group: the span holds digits only and stops at a non-digit. |
| HostPort.ParseHostPort | manage_k8s_aliases.py:55-59 | Without an `http://`/`https://` prefix the result is `("", 6443)`. The host never contains `:` or `/`. An empty host comes with port 6443. A non-empty host follows the scheme directly and is maximal. Any port other than 6443 was written after a `:` that directly follows the host. |
| HostPort.ToDecimal | manage_k8s_aliases.py:58 | The decimal rendering of a port is a non-empty digit string that `int()` reads back as the same number. |
| HostPort.ParsesExplicitPort | manage_k8s_aliases.py:55-59 | `scheme + host + ":" + str(port) + path` parses back to `(host, port)` when the path does not start with a digit. |
| HostPort.ParsesWrittenPort | manage_k8s_aliases.py:55-59 | `scheme + host + ":" + d + path` parses to `(host, int(d))` for any non-empty digit string `d`, leading zeros included, when the path does not start with a digit. |
| HostPort.ParseAuthority | manage_k8s_aliases.py:56-59 | The groups after the scheme: the host is a prefix of the rest, made of host characters and maximal. An empty host gives 6443. Any other port follows a `:` right after the host. |
| HostPort.PortAfterHost | manage_k8s_aliases.py:56-58 | The optional `:port` group: a port other than 6443 comes only from text starting with `:`. |
| HostPort.DecimalValue | manage_k8s_aliases.py:58 | Definition of `int(d)` on a digit string. `ToDecimal` proves that it reads `str(n)` back as `n`. |
| HostPort.ParsesDefaultPort | manage_k8s_aliases.py:55-59 | `scheme + host + path` parses to `(host, 6443)` when the path is empty, starts with `/`, or is a `:` not followed by a digit. |
| Text.Contains | manage_k8s_aliases.py:41 | Definition of Python's `pat in s`: `pat` occurs at some index of `s` (also line 205). `FindFirst` relates it to a left-to-right scan. |
| Text.FindFirst | manage_k8s_aliases.py:205 | `pat in s` holds exactly when a left-to-right scan finds an occurrence. |
| Text.SplitFirst | manage_k8s_aliases.py:206 | `s.split(sep)[0]` is a prefix of `s` that does not contain `sep`. When `sep` occurs, its first occurrence is right after that prefix; otherwise the prefix is all of `s`. |
| Text.SplitLast | manage_k8s_aliases.py:207 | `s.split(sep)[-1]` is a suffix of `s` that does not contain `sep`. When `sep` occurs, the text before the suffix ends with `sep`; otherwise the suffix is all of `s`. |
| Text.RStrip | manage_k8s_aliases.py:210 | `s.rstrip()` is a prefix of `s`. Everything it drops is whitespace (`str.isspace`), and its own last character is not whitespace. |
| Text.IsSpace | manage_k8s_aliases.py:210 | Definition of the characters for which `str.isspace()` holds: the ASCII spaces `\t` to `\r` and `' '`, `\x1c` to `\x1f`, and the Unicode spaces and separators. `RStrip` is stated with it. |
| Text.IsBlank | manage_k8s_aliases.py:210 | Definition of `s.strip() == ""`: every character of `s` is whitespace. `SpliceAppendsBlock` uses it to decide between the bare block and the appended one. |
| Text.Join | manage_k8s_aliases.py:200 | Definition of `"\n".join(lines)`: the lines with one newline between neighbours. `JoinEnds` states how it starts and ends. |
| Text.JoinEnds | manage_k8s_aliases.py:200 | `"\n".join(lines)` starts with the first line and ends with the last line. |
| ManagedBlock.SplitFirstAt | manage_k8s_aliases.py:206 | With a first begin marker at `i`, the text before the block is exactly `text[..i]`. |
| ManagedBlock.SplitLastAt | manage_k8s_aliases.py:207 | With the last end marker ending at `j`, the text after the block is exactly `text[j..]`. For that, the marker's first character must not recur in the marker, so two occurrences never overlap. |
| ManagedBlock.SpliceReplacesRegion | manage_k8s_aliases.py:205-208 | When both markers are present, the new text is the text before the first begin marker, then the block, then the text after the last end marker. |
| ManagedBlock.SpliceAppendsBlock | manage_k8s_aliases.py:209-210 | Without both markers, a blank file becomes just the block. Otherwise it becomes the file's content with trailing whitespace dropped, one blank line, then the block. |
| ManagedBlock.SpliceInstallsBlock | manage_k8s_aliases.py:205-210 | The block always occurs in the new text, right after the part of the old text that is kept. |
| ManagedBlock.ReapplyAddsNewline | manage_k8s_aliases.py:200-208 | Take a block framed by the markers and ending in `END + "\n"`, and an old text in which every begin marker comes with an end marker. Applying the splice a second time gives head + block + `"\n"` + tail, one newline more than the first time. |
| ManagedBlock.ReapplyAfterLoneBegin | manage_k8s_aliases.py:205-210 | Take an old text with a begin marker but no end marker. The first write appends: the text with trailing whitespace dropped, a blank line, then the block. The second write keeps only the text before that lone begin marker, then the block, then `"\n"`. So the file gets shorter. |
| ManagedBlock.SpliceNotIdempotent | manage_k8s_aliases.py:200-210 | For every old text, re-applying the same block changes the file. It grows by exactly one character when every begin marker comes with an end marker. It shrinks when the text held a begin marker without an end marker. |
| ManagedBlock.Splice | manage_k8s_aliases.py:205-210 | Definition of the new text: with both markers, `split(BEGIN)[0] + block + split(END)[-1]`; else `rstrip() + "\n\n" + block` for a non-blank text; else the block. Its properties are `SpliceReplacesRegion`, `SpliceAppendsBlock`, `SpliceInstallsBlock` and `SpliceNotIdempotent`. |
| ManagedBlock.Head | manage_k8s_aliases.py:205-210 | Definition of the part of the old text kept in front of the block (`pre`, or the stripped text and a blank line). `SpliceParts` proves that the splice is head + block + tail. `HeadAvoidsBegin` proves that the head holds no begin marker when every begin marker in the old text is followed by an end marker; after a lone begin marker the stripped text is kept whole, marker included. |
| ManagedBlock.Tail | manage_k8s_aliases.py:207 | Definition of the part kept after the block (`post`, or nothing). `TailAvoidsEnd` proves it holds no end marker. |
| ShellBlock.GlobalHelpers | manage_k8s_aliases.py:132-146 | Definition of the fifteen helper lines shared by every profile, as written there. `HelpersOrdinary` proves that none of them is a profile header or an ArgoCD function header. |
| ShellBlock.Section | manage_k8s_aliases.py:149-197 | Definition of one profile's lines: the kubeconfig, password-login, token-login and skopeo functions, then the ArgoCD function when the server is truthy, then a blank line. Its properties are `SectionHeaders`, `SectionArgo`, `SectionSkipsTlsIffInsecure` and `SectionFlagOnlyInLogins`. |
| ShellBlock.Sections | manage_k8s_aliases.py:149-197 | Definition of the sections of the named profiles, in order. Its properties are `SectionsHeaders` and `SectionsArgo`. |
| ShellBlock.BlockLines | manage_k8s_aliases.py:127-199 | Definition of the block's lines: begin marker, helpers, the sections in key order, end marker. `RenderShellBlock` is proved to produce exactly these lines joined, plus a final newline. |
| ShellBlock.RenderShellBlock | manage_k8s_aliases.py:121-200 | The loop produces the begin marker, the global helpers, and one section per profile in key order. Each section contains the ArgoCD function only when it is configured. Then come the end marker and a final newline, joined by newlines. |
| ShellBlock.RenderedIsManagedBlock | manage_k8s_aliases.py:128-200 | The rendered block starts with the begin marker and ends with the end marker plus `"\n"`. |
| ShellBlock.OneSectionPerProfile | manage_k8s_aliases.py:149-156 | In the list of lines that `"\n".join` receives, the `# ---- Perfil: ` header entries are exactly one per profile, in the store's key order. |
| ShellBlock.ArgoLoginOnlyWhenConfigured | manage_k8s_aliases.py:187-194 | An `argocd-login-<n>() {` entry is in the list of lines that `"\n".join` receives exactly when `n` is a profile whose ArgoCD server is set and non-empty. |
| ShellBlock.SkipTlsIffInsecure | manage_k8s_aliases.py:164-172 | Both `oc login` command lines contain `--insecure-skip-tls-verify=true` exactly when the profile is insecure, provided the server and kubeconfig values do not themselves spell the flag. |
| ShellBlock.SectionSkipsTlsIffInsecure | manage_k8s_aliases.py:164-172 | In a profile's section, the password-login line and the token-login line each carry the flag exactly when the profile is insecure. This requires that the profile's server and kubeconfig values do not contain the flag text. |
| ShellBlock.SectionFlagOnlyInLogins | manage_k8s_aliases.py:149-197 | Every line of a profile's section carries `--insecure-skip-tls-verify=true` exactly when the profile is insecure and the line is one of the two `oc login` command lines. So the section carries the flag somewhere exactly when the profile is insecure. This requires that the name and default user do not contain the flag without its leading `-`, and that the server, kubeconfig and ArgoCD server do not contain the flag. |
| ShellBlock.DashedNameCompletesFlag | manage_k8s_aliases.py:156-160 | The requirement on the name is needed: the name `-insecure-skip-tls-verify=true` lacks the flag, yet the `oc-login-<name>() {` line then carries it. |
| ShellBlock.SectionsFlag | manage_k8s_aliases.py:149-197 | The sections of a list of profiles carry the flag somewhere exactly when one of those profiles is insecure, under the same requirement on each profile's values. |
| ShellBlock.BlockSkipsTlsIffSomeInsecure | manage_k8s_aliases.py:127-199 | The block's lines, including the fifteen helpers and the markers, carry the flag exactly when some stored profile is insecure, under the same requirement on each profile's values. |
| ShellBlock.KubectlAliasesAvoid | manage_k8s_aliases.py:128-142 | None of the begin marker and the `kubectl` alias lines carries the flag. |
| ShellBlock.ContextHelpersAvoid | manage_k8s_aliases.py:143-146 | None of the context helper lines carries the flag, and neither does the end marker of line 198. |
| Profiles.Truthy | manage_k8s_aliases.py:87 | Definition of Python truthiness for an optional string: present and non-empty (also line 187). `Upserted` and `Section` branch on it. |
| FileSystem.ReadOrEmpty | manage_k8s_aliases.py:40 | Definition of "the file's text, or `""` when it does not exist" (also line 204). |
| FileSystem.Home.WriteText | manage_k8s_aliases.py:211-213 | Writing a file sets its text to the new text and leaves other files alone. |
| FileSystem.Home.AppendText | create_oc_aliases.py:17-18 | Appending creates a missing file as empty, adds the text at the end, and leaves other files alone. |
| K8sAliases.LoadProfiles | manage_k8s_aliases.py:26-32 | A fresh dict holding the loaded store. |
| K8sAliases.SaveProfiles | manage_k8s_aliases.py:34-35 | The profile file afterwards holds the dict's store. |
| K8sAliases.UpsertProfile | manage_k8s_aliases.py:84-90 | The file afterwards holds `Upserted` of the loaded store. |
| K8sAliases.RemoveProfile | manage_k8s_aliases.py:92-101 | Reports whether the name was present. If it was, the file holds `Removed` of the loaded store. If not, the file is not written, not even an unparsable one. |
| K8sAliases.SetDefault | manage_k8s_aliases.py:103-109 | Reports whether the name was present. If it was, the file holds the store with that default. If not, the file is not written. |
| K8sAliases.WriteManagedBlock | manage_k8s_aliases.py:202-214 | The aliases file, missing read as empty, is replaced by the splice of its text with the block. No other file changes. |
| K8sAliases.SourceLine | manage_k8s_aliases.py:39 | Definition of the line `[ -f "<aliases>" ] && source "<aliases>"`. |
| K8sAliases.WithSourceLine | manage_k8s_aliases.py:39-43 | The rc text afterwards contains the source line and keeps the old text as a prefix. It is unchanged when the line was already present. Otherwise it is exactly the old text, a newline, the line and a newline. |
| K8sAliases.SourceLineIdempotent | manage_k8s_aliases.py:39-43 | Running the sourcing step twice gives the same rc text as once. |
| K8sAliases.SourceInto | manage_k8s_aliases.py:39-43 | One turn of the loop: the rc file's text, missing read as empty, becomes `WithSourceLine` of it. No other file changes. |
| K8sAliases.EnsureRcSources | manage_k8s_aliases.py:37-46 | The loop over (`.zshrc`, `.zsh_aliases`) and (`.bashrc`, `.bash_aliases`) applies the sourcing step to each rc file in turn. |
| K8sAliases.Sourced | manage_k8s_aliases.py:37-46 | Definition of the files after the loop has handled a list of (rc, aliases) pairs. `EnsureRcSources` is proved equal to it, and `RcFilesSourceAliases` states what it leaves in the rc files. |
| K8sAliases.RcFilesSourceAliases | manage_k8s_aliases.py:37-46 | Afterwards each rc file exists and sources its aliases file. An rc file that already did is unchanged. No other path changes. |
| K8sAliases.RenderedBlock | manage_k8s_aliases.py:218 | Definition of the block text that `apply_aliases` writes: the block's lines joined by newlines, plus a final newline. `RenderShellBlock` is proved to return it, and `RenderedIsManagedBlock` that it is framed by the markers. |
| K8sAliases.ApplyAliases | manage_k8s_aliases.py:216-223 | One block is rendered from the loaded store and spliced into `.zsh_aliases`, then into `.bash_aliases`. Then rc sourcing runs. |
| K8sAliases.Applied | manage_k8s_aliases.py:216-221 | Definition of the files after apply: the rendered block spliced into both aliases files, then rc sourcing. `ApplyAliases` is proved equal to it, and `ApplyInstallsBlock` states what it contains. |
| K8sAliases.ApplyInstallsBlock | manage_k8s_aliases.py:216-221 | After apply, each aliases file is its old text spliced with the rendered block, which carries the markers. Both rc files source their aliases files. |
| K8sAliases.Dispatch | manage_k8s_aliases.py:250-271 | For each command: `add` upserts the prompted profile, then applies. If the prompt rejected an empty name, it exits with status 2 and changes nothing. `rm <n>` and `default <n>` update the store only for a known name, but apply in every case. `apply` applies. `list` and `check` change no file. No arguments shows usage with exit code 0. Anything else shows usage with exit code 2 and changes nothing. |
| OcAliases.OcAlias | create_oc_aliases.py:27 | Definition of `alias oc-login='oc login -u <user> --server=<server>'`. `OcAliasInjective` proves it determines its user and server. |
| OcAliases.SkopeoAlias | create_oc_aliases.py:32 | Definition of `alias skopeo-login='skopeo login -u <user> -p "$(oc whoami -t)" <registry>'`. `SkopeoAliasInjective` proves it determines its user and registry. |
| OcAliases.AliasesAdded | create_oc_aliases.py:34-36 | Definition of the files after the loop has handled a list of paths, appending the oc alias and then the skopeo alias to each. `CreateOcAliases` is proved equal to it, and `BothFilesGetBothAliases` states its effect. |
| OcAliases.AliasAppended | create_oc_aliases.py:14-21 | The file afterwards contains the alias and keeps its old text as a prefix. It is unchanged when it already held the alias. Otherwise a missing or alias-free file becomes exactly its old text (empty when missing), the marker comment, the alias and a newline. |
| OcAliases.AppendAliasIdempotent | create_oc_aliases.py:16-21 | A second `append_alias` with the same line changes nothing. |
| OcAliases.AppendAlias | create_oc_aliases.py:14-21 | Only the given file changes, and its new text is `AliasAppended` of its old text (None for a missing file). |
| OcAliases.CreateOcAliases | create_oc_aliases.py:23-36 | The oc alias and the skopeo alias built from the four answers are appended to `.zsh_aliases` and then to `.bash_aliases`. |
| OcAliases.BothFilesGetBothAliases | create_oc_aliases.py:34-36 | In each aliases file the oc alias is appended first, then the skopeo alias. No other file changes. |
| OcAliases.AppendedInOrder | create_oc_aliases.py:34-36 | Take a file holding neither alias, where the skopeo alias has no newline and does not occur inside the oc alias. It ends up as old text + marker + oc alias + newline + marker + skopeo alias + newline. |
| OcAliases.OcAliasInjective | create_oc_aliases.py:27 | The oc alias `alias oc-login='oc login -u U --server=S'` determines U and S whenever the user has no space. |
| OcAliases.SkopeoAliasInjective | create_oc_aliases.py:32 | The skopeo alias determines its user and registry whenever the user has no space. |

## Left out

- `install.py` and `install_oc.py`: network downloads, archive extraction, package-manager and `chmod` calls, and shell-completion generation. All of it is I/O with no logic to state. The PATH-line append of `install.py:33-40` is left out too. It is an append-if-absent like the one modelled, but it only touches an rc file that already exists, and creates none.
- The content of the download: nothing in the code verifies a checksum or restricts archive paths, so there is nothing to model in its place.
- Interactive prompts: `prompt_profile` in manage_k8s_aliases.py and `get_input` in create_oc_aliases.py. Their answers are parameters (`prompted` in `K8sAliases.Dispatch`, `None` when the name was rejected; the four strings of `OcAliases.CreateOcAliases`).
- `tcp_reachable` and `check_reachability_all`: socket I/O. The URL parsing they rely on is modelled as `HostPort.ParseHostPort`.
- `list_profiles` and `usage`: console output only. All `print` calls are left out.
- JSON encoding and decoding, and JSON values of the wrong shape: they are abstracted to `ConfFile`. For example, a parsed file without a `"profiles"` key raises `KeyError` in the source; the model has no such case.
- `CONF_DIR.mkdir` and `parent.mkdir`, and the temporary-file-then-rename write of `write_managed_block`: filesystem mechanics. The model keeps the computed text only.
- The `subprocess.run("zsh", …)` that `create_oc_aliases.py` starts at the end: a foreign process.
- HostPort.DigitSpan: `\d` is ASCII digits only, while Python's `re` also matches other Unicode decimal digits in a `str` pattern.
- ManagedBlock.ReapplyAddsNewline: does not cover a file that contains a begin marker but no end marker. There the second write drops everything from that begin marker through the first block. `ManagedBlock.ReapplyAfterLoneBegin` states that case.
- ShellBlock.SkipTlsIffInsecure: holds only when the server and kubeconfig values do not themselves contain the flag text, since the source interpolates them unescaped.
- ShellBlock.SectionFlagOnlyInLogins: holds only when the profile's values do not spell the flag (and the name and user do not spell it without its leading `-`). `SectionsFlag` and `BlockSkipsTlsIffSomeInsecure` carry the same requirement.
- ShellBlock.OneSectionPerProfile: is about the list of lines passed to `"\n".join`, not about the lines of the written text. A value with a newline in it, possible in a hand-edited `profiles.json`, adds lines to the text; such a line could then look like a header. `ShellBlock.ArgoLoginOnlyWhenConfigured` is stated the same way.
- Newline translation: `read_text` and `write_text` (manage_k8s_aliases.py:204, 212) and the text-mode `open` of both scripts read `"\r\n"` and `"\r"` as `"\n"`. The model sees file text exactly as stored, so a file with such line endings is spliced as if untranslated.
- Decoding errors: a file that is not valid text in the locale's encoding makes `read_text` raise `UnicodeDecodeError`. The uncaught error stops `apply_aliases` partway, possibly after `.zsh_aliases` was written and before `.bash_aliases` was. Files are strings in the model, so this failure is not modelled.
- HostPort.ParseHostPort: returns a number for any digit string, while `int()` on Python 3.11 and later raises `ValueError` for a port of more than 4300 digits (line 58).
- FileSystem.ZshAliases: the paths are `root + "/.zsh_aliases"` and so on. With `HOME` set to `/`, `pathlib` gives `/.zsh_aliases` while the model gives `//.zsh_aliases`; the same text appears inside `K8sAliases.SourceLine`.
- Shell semantics of the generated block: only its lines and their structure are modelled.
