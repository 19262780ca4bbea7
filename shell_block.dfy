/**
 * `render_shell_block`: the POSIX-shell block written between the sentinel
 * markers: global kubectl helpers, then one section of login functions per
 * profile, in the store's key order.
 */
module ShellBlock {

  import opened Wrappers
  import opened Text
  import opened Profiles
  import opened ManagedBlock

  const HeaderPrefix := "# ---- Perfil: "
  const InsecureFlag := "--insecure-skip-tls-verify=true"

  // Long literals are written as pieces shorter than `InsecureFlag`, each cut
  // after a character the flag lacks, so that the proofs at the end of this
  // module can tell that no fixed text holds the flag. The text is unchanged.

  /** Lines 132-146: aliases and helper functions shared by every profile. */
  const GlobalHelpers: seq<string> := KubectlAliases + ContextHelpers

  /** Lines 132-142: the kubectl aliases and a blank line. */
  const KubectlAliases: seq<string> := [
    "# Helpers globais",
    "alias k=\"kubectl\"",
    "alias kg=\"kubectl get\"",
    "alias kd=\"kubectl describe\"",
    "alias kga=\"kubectl get -A\"",
    "alias kgp=\"kubectl get pods\"",
    "alias kgs=\"kubectl get svc\"",
    "alias kgn=\"kubectl get nodes\"",
    "alias kdp=\"kubectl " + "describe pod\"",
    "alias klogs=\"kubectl logs\"",
    ""
  ]

  /** Lines 143-146: the namespace, context and kubeconfig switchers and a blank line. */
  const ContextHelpers: seq<string> := [
    OneLineFunction("kns", "if [ -z \"$1\" ]; then " + "echo \"uso: kns <namespace>\"; " + "return 2; fi; "
      + "kubectl config " + "set-context --current " + "--namespace=\"$1\";"),
    OneLineFunction("kctx", "if [ -z \"$1\" ]; then " + "kubectl config get-contexts; " + "return; fi; "
      + "kubectl config use-context " + "\"$1\";"),
    OneLineFunction("use-kcfg", "if [ -z \"$1\" ]; then " + "echo \"uso: " + "use-kcfg <perfil>\"; " + "return 2; fi; "
      + "export " + "KUBECONFIG=\"" + "$HOME/.kube/config-$1\"; " + "echo \"KUBECONFIG=$KUBECONFIG\";"),
    ""
  ]

  const OcBinLine := Indented("OC_BIN=\"${OC_BIN:" + "-$HOME/.local/bin/oc}\"")
  const PasswordPrompt := Indented("printf \"Senha (%s): \" " + "\"$user\" 1>&2; stty -echo; " + "read -r pw; stty echo; " + "printf \"\\n\" 1>&2")
  const TokenDefault := Indented("local " + "tok=\"${1:-${OCP_TOKEN}}\";")
  const TokenPrompt := Indented("if [ -z \"$tok\" ]; then " + "printf \"Token: \" 1>&2; " + "stty -echo; read -r tok; " + "stty echo; printf \"\\n\" 1>&2; " + "fi")
  const WhoamiCheck := Indented("if ! \"$OC_BIN\" whoami " + ">/dev/null 2>&1; then " + "echo \"Fa\U{E7}a oc-login " + "primeiro.\" 1>&2; " + "return 1; fi")
  const RouteLookup := Indented("local host; " + "host=$(\"$OC_BIN\" -n " + "openshift-image-registry " + "get route default-route " + "-o jsonpath=\"{.spec.host}\" " + "2>/dev/null)")
  const RouteCheck := Indented("if [ -z \"$host\" ]; then " + "echo \"default-route do " + "image-registry n\U{E3}o " + "encontrado (verifique " + "a exposi\U{E7}\U{E3}o externa).\" " + "1>&2; return 2; fi")
  const TokenLookup := Indented("local tok; " + "tok=$(\"$OC_BIN\" whoami -t)")
  const SkopeoLogin := Indented("skopeo login " + "--tls-verify=false -u unused " + "-p \"$tok\" \"$host\"")
  const ArgoUserDefault := Indented("local user=\"${1:-admin}\"")
  const ArgoPrompt := Indented("printf \"Senha ArgoCD (%s): \" " + "\"$user\" 1>&2; stty -echo; " + "read -r pw; stty echo; " + "printf \"\\n\" 1>&2")

  /** A line of a function body, indented by two spaces. */
  function Indented(line: string): string {
    "  " + line
  }

  /** A shell function written on one line. */
  function OneLineFunction(name: string, body: string): string {
    name + "(){ " + body + " }"
  }

  /** Start of the `oc login` command lines up to the opening quote of the server. */
  const OcLogin := "\"$OC_BIN\" login"
  const PasswordLoginStart := Indented(OcLogin + " -u \"$user\" -p \"$pw\" --server=")
  const TokenLoginStart := Indented(OcLogin + " --token=\"$tok\" --server=")

  function InsecureOption(insecure: bool): string {
    if insecure then InsecureFlag else ""
  }

  function Quoted(s: string): string {
    "\"" + s + "\""
  }

  /** The command line that ends `oc-login-<name>` and `oc-login-token-<name>` (lines 164, 172). */
  function LoginCommand(start: string, server: string, insecure: bool, kubeconfig: string): string {
    start + Quoted(server) + " " + InsecureOption(insecure) + " --kubeconfig=" + Quoted(kubeconfig)
  }

  function SectionHeader(name: string): string {
    HeaderPrefix + name
  }

  function ArgoLoginHeader(name: string): string {
    "argocd-login-" + name + "() {"
  }

  /** Lines 156-158: the section header and `use-kcfg-<name>`. */
  function KubeconfigLines(name: string, p: Profile): seq<string> {
    [ SectionHeader(name),
      "use-kcfg-" + name + "() { export KUBECONFIG=\"" + p.kubeconfig + "\"; echo " + "\"KUBECONFIG=$KUBECONFIG\"; }",
      "" ]
  }

  /** Lines 160-165: `oc-login-<name>`, password login. */
  function PasswordLoginLines(name: string, p: Profile): seq<string> {
    [ "oc-login-" + name + "() {",
      OcBinLine,
      "  local user=\"${1:-" + p.userDefault + "}\"",
      PasswordPrompt,
      LoginCommand(PasswordLoginStart, p.server, p.insecure, p.kubeconfig),
      "}" ]
  }

  /** Lines 168-173: `oc-login-token-<name>`, token login. */
  function TokenLoginLines(name: string, p: Profile): seq<string> {
    [ "oc-login-token-" + name + "() {",
      OcBinLine,
      TokenDefault,
      TokenPrompt,
      LoginCommand(TokenLoginStart, p.server, p.insecure, p.kubeconfig),
      "}" ]
  }

  /** Lines 176-183: `skopeo-login-internal-<name>`. */
  function SkopeoLines(name: string): seq<string> {
    [ "skopeo-login-internal-" + name + "() {",
      OcBinLine,
      WhoamiCheck,
      RouteLookup,
      RouteCheck,
      TokenLookup,
      SkopeoLogin,
      "}" ]
  }

  /** Lines 190-194: `argocd-login-<name>`. */
  function ArgoLines(name: string, host: string): seq<string> {
    [ ArgoLoginHeader(name),
      ArgoUserDefault,
      ArgoPrompt,
      "  argocd login \"" + host + "\" --username \"$user\" " + "--password \"$pw\" --insecure",
      "}" ]
  }

  /** The lines the loop body appends for one profile. */
  function ProfileLines(name: string, p: Profile): seq<string> {
    KubeconfigLines(name, p) + PasswordLoginLines(name, p) + TokenLoginLines(name, p) + SkopeoLines(name)
  }

  function Section(name: string, p: Profile): seq<string> {
    ProfileLines(name, p)
    + (if Truthy(p.argocdServer) then ArgoLines(name, p.argocdServer.value) else [])
    + [""]
  }

  /** The sections of the profiles named in `names`, in that order. */
  function Sections(names: seq<string>, profiles: map<string, Profile>): seq<string>
    requires forall n | n in names :: n in profiles
  {
    if names == [] then []
    else
      var last := names[|names| - 1];
      Sections(names[..|names| - 1], profiles) + Section(last, profiles[last])
  }

  lemma SectionsSnoc(names: seq<string>, i: nat, profiles: map<string, Profile>)
    requires i < |names|
    requires forall n | n in names :: n in profiles
    ensures Sections(names[..i + 1], profiles)
         == Sections(names[..i], profiles) + Section(names[i], profiles[names[i]])
  {
    assert names[..i + 1][..i] == names[..i];
  }

  lemma AppendAssoc(a: seq<string>, b: seq<string>, c: seq<string>)
    ensures (a + b) + c == a + (b + c)
  {
  }

  /** What one turn of the rendering loop appends is the profile's section. */
  lemma SectionAppended(before: seq<string>, name: string, p: Profile)
    ensures Truthy(p.argocdServer) ==>
              before + ProfileLines(name, p) + ArgoLines(name, p.argocdServer.value) + [""]
              == before + Section(name, p)
    ensures !Truthy(p.argocdServer) ==> before + ProfileLines(name, p) + [""] == before + Section(name, p)
  {
  }

  /** The lines of the rendered block, before they are joined. */
  function BlockLines(s: Store): seq<string>
    requires s.WellFormed()
  {
    [SentinelBegin] + GlobalHelpers + Sections(s.names, s.profiles) + [SentinelEnd]
  }

  /** `render_shell_block(cfg)`, building `lines` in a loop over the profiles. */
  method RenderShellBlock(cfg: Config) returns (block: string)
    requires cfg.Valid()
    ensures block == Join(BlockLines(cfg.Snapshot())) + "\n"
  {
    var lines := [SentinelBegin];
    lines := lines + GlobalHelpers;
    ghost var helpers := lines;
    var i := 0;
    while i < |cfg.names|
      invariant 0 <= i <= |cfg.names|
      invariant lines == helpers + Sections(cfg.names[..i], cfg.profiles)
    {
      var name := cfg.names[i];
      var p := cfg.profiles[name];
      ghost var before := lines;
      lines := lines + ProfileLines(name, p);
      if Truthy(p.argocdServer) {
        lines := lines + ArgoLines(name, p.argocdServer.value);
      }
      lines := lines + [""];
      SectionAppended(before, name, p);
      SectionsSnoc(cfg.names, i, cfg.profiles);
      AppendAssoc(helpers, Sections(cfg.names[..i], cfg.profiles), Section(name, p));
      i := i + 1;
    }
    assert cfg.names[..i] == cfg.names;
    lines := lines + [SentinelEnd];
    block := Join(lines) + "\n";
  }

  // ---------------------------------------------------------------------
  // The rendered block is a managed block

  lemma RenderedIsManagedBlock(s: Store)
    requires s.WellFormed()
    ensures IsManagedBlock(Join(BlockLines(s)) + "\n")
  {
    var lines := BlockLines(s);
    var j := Join(lines);
    JoinEnds(lines);
    assert lines[0] == SentinelBegin && lines[|lines| - 1] == SentinelEnd;
    assert (j + "\n")[..|SentinelBegin|] == j[..|SentinelBegin|];
    assert (j + "\n")[|j + "\n"| - |SentinelEnd + "\n"|..] == j[|j| - |SentinelEnd|..] + "\n";
  }

  // ---------------------------------------------------------------------
  // One section per profile, in the store's key order

  predicate IsHeader(line: string) {
    IsPrefix(HeaderPrefix, line)
  }

  /** The section header lines of `lines`, in order. */
  function Headers(lines: seq<string>): (r: seq<string>)
    ensures forall k | 0 <= k < |r| :: IsHeader(r[k])
  {
    if lines == [] then []
    else (if IsHeader(lines[0]) then [lines[0]] else []) + Headers(lines[1..])
  }

  function HeaderLines(names: seq<string>): (r: seq<string>)
    ensures |r| == |names|
    ensures forall k | 0 <= k < |names| :: r[k] == SectionHeader(names[k])
  {
    if names == [] then [] else HeaderLines(names[..|names| - 1]) + [SectionHeader(names[|names| - 1])]
  }

  lemma {:induction false} HeadersAppend(a: seq<string>, b: seq<string>)
    ensures Headers(a + b) == Headers(a) + Headers(b)
  {
    if a != [] {
      assert (a + b)[0] == a[0];
      assert (a + b)[1..] == a[1..] + b;
      HeadersAppend(a[1..], b);
    } else {
      assert a + b == b;
    }
  }

  /** A line whose first or third character rules out the header prefix. */
  predicate PlainLine(line: string) {
    line == [] || line[0] != '#' || (|line| > 2 && line[2] != '-')
  }

  /** A line whose second character rules out `argocd-login-`. */
  predicate NotArgoLike(line: string) {
    |line| < 2 || line[1] != 'r'
  }

  predicate Ordinary(line: string) {
    PlainLine(line) && NotArgoLike(line)
  }

  predicate AllPlain(lines: seq<string>) {
    forall k | 0 <= k < |lines| :: PlainLine(lines[k])
  }

  predicate AllOrdinary(lines: seq<string>) {
    forall k | 0 <= k < |lines| :: Ordinary(lines[k])
  }

  lemma HeaderChars(line: string)
    requires IsHeader(line)
    ensures line[0] == '#' && line[2] == '-'
  {
    assert line[..|HeaderPrefix|][0] == line[0] && line[..|HeaderPrefix|][2] == line[2];
  }

  lemma {:induction false} NoHeaders(lines: seq<string>)
    requires AllPlain(lines)
    ensures Headers(lines) == []
  {
    if lines != [] {
      if IsHeader(lines[0]) {
        HeaderChars(lines[0]);
        assert false;
      }
      NoHeaders(lines[1..]);
    }
  }

  lemma {:induction false} OrdinaryAppend(a: seq<string>, b: seq<string>)
    requires AllOrdinary(a) && AllOrdinary(b)
    ensures AllOrdinary(a + b)
  {
    forall k | 0 <= k < |a + b|
      ensures Ordinary((a + b)[k])
    {
      if k < |a| {
        assert (a + b)[k] == a[k];
      } else {
        assert (a + b)[k] == b[k - |a|];
      }
    }
  }

  lemma KubectlAliasesOrdinary()
    ensures AllOrdinary([SentinelBegin] + KubectlAliases)
  {
    var g := [SentinelBegin] + KubectlAliases;
    assert Ordinary(g[0]) && Ordinary(g[1]) && Ordinary(g[2]) && Ordinary(g[3]);
    assert Ordinary(g[4]) && Ordinary(g[5]) && Ordinary(g[6]) && Ordinary(g[7]);
    assert Ordinary(g[8]) && Ordinary(g[9]) && Ordinary(g[10]) && Ordinary(g[11]);
  }

  lemma ContextHelpersOrdinary()
    ensures AllOrdinary(ContextHelpers)
  {
    var g := ContextHelpers;
    assert Ordinary(g[0]) && Ordinary(g[1]) && Ordinary(g[2]) && Ordinary(g[3]);
  }

  lemma HelpersOrdinary()
    ensures AllOrdinary([SentinelBegin] + GlobalHelpers) && AllOrdinary([SentinelEnd])
  {
    KubectlAliasesOrdinary();
    ContextHelpersOrdinary();
    OrdinaryAppend([SentinelBegin] + KubectlAliases, ContextHelpers);
    assert [SentinelBegin] + GlobalHelpers == [SentinelBegin] + KubectlAliases + ContextHelpers;
    assert Ordinary([SentinelEnd][0]);
  }

  lemma LoginCommandStart(start: string, server: string, insecure: bool, kubeconfig: string)
    requires |start| >= 2
    ensures LoginCommand(start, server, insecure, kubeconfig)[0] == start[0]
    ensures LoginCommand(start, server, insecure, kubeconfig)[1] == start[1]
  {
  }

  lemma KubeconfigLinesOrdinary(name: string, p: Profile)
    ensures AllOrdinary(KubeconfigLines(name, p)[1..])
  {
    var kc := KubeconfigLines(name, p)[1..];
    assert Ordinary(kc[0]) && Ordinary(kc[1]);
  }

  lemma PasswordLoginLinesOrdinary(name: string, p: Profile)
    ensures AllOrdinary(PasswordLoginLines(name, p))
  {
    LoginCommandStart(PasswordLoginStart, p.server, p.insecure, p.kubeconfig);
    var pw := PasswordLoginLines(name, p);
    assert Ordinary(pw[0]) && Ordinary(pw[1]) && Ordinary(pw[2]);
    assert Ordinary(pw[3]) && Ordinary(pw[4]) && Ordinary(pw[5]);
  }

  lemma TokenLoginLinesOrdinary(name: string, p: Profile)
    ensures AllOrdinary(TokenLoginLines(name, p))
  {
    LoginCommandStart(TokenLoginStart, p.server, p.insecure, p.kubeconfig);
    var tk := TokenLoginLines(name, p);
    assert Ordinary(tk[0]) && Ordinary(tk[1]) && Ordinary(tk[2]);
    assert Ordinary(tk[3]) && Ordinary(tk[4]) && Ordinary(tk[5]);
  }

  lemma SkopeoLinesOrdinary(name: string)
    ensures AllOrdinary(SkopeoLines(name))
  {
    var sk := SkopeoLines(name);
    assert Ordinary(sk[0]) && Ordinary(sk[1]) && Ordinary(sk[2]) && Ordinary(sk[3]);
    assert Ordinary(sk[4]) && Ordinary(sk[5]) && Ordinary(sk[6]) && Ordinary(sk[7]);
  }

  lemma ProfileLinesOrdinary(name: string, p: Profile)
    ensures AllOrdinary(KubeconfigLines(name, p)[1..])
    ensures AllOrdinary(PasswordLoginLines(name, p))
    ensures AllOrdinary(TokenLoginLines(name, p))
    ensures AllOrdinary(SkopeoLines(name))
  {
    KubeconfigLinesOrdinary(name, p);
    PasswordLoginLinesOrdinary(name, p);
    TokenLoginLinesOrdinary(name, p);
    SkopeoLinesOrdinary(name);
  }

  /** Every ArgoCD line but the first is ordinary; the first is only plain. */
  lemma ArgoLinesShape(name: string, host: string)
    ensures AllPlain(ArgoLines(name, host))
    ensures AllOrdinary(ArgoLines(name, host)[1..]) && AllOrdinary([""])
  {
    var a := ArgoLines(name, host);
    assert PlainLine(a[0]);
    assert Ordinary(a[1]) && Ordinary(a[2]) && Ordinary(a[3]) && Ordinary(a[4]);
    assert Ordinary([""][0]);
  }

  /** The header lines of a section-shaped list: only the first line of its first part. */
  lemma SectionShapeHeaders(kc: seq<string>, pw: seq<string>, tk: seq<string>, sk: seq<string>, argo: seq<string>)
    requires kc != [] && IsHeader(kc[0]) && AllPlain(kc[1..])
    requires AllPlain(pw) && AllPlain(tk) && AllPlain(sk) && AllPlain(argo)
    ensures Headers(kc + pw + tk + sk + argo + [""]) == [kc[0]]
  {
    assert kc == [kc[0]] + kc[1..];
    HeadersAppend([kc[0]], kc[1..]);
    NoHeaders(kc[1..]);
    NoHeaders(pw);
    NoHeaders(tk);
    NoHeaders(sk);
    NoHeaders(argo);
    NoHeaders([""]);
    HeadersAppend(kc, pw);
    HeadersAppend(kc + pw, tk);
    HeadersAppend(kc + pw + tk, sk);
    HeadersAppend(kc + pw + tk + sk, argo);
    HeadersAppend(kc + pw + tk + sk + argo, [""]);
  }

  lemma SectionHeaders(name: string, p: Profile)
    ensures Headers(Section(name, p)) == [SectionHeader(name)]
  {
    var argo := if Truthy(p.argocdServer) then ArgoLines(name, p.argocdServer.value) else [];
    ProfileLinesOrdinary(name, p);
    ArgoLinesShape(name, if Truthy(p.argocdServer) then p.argocdServer.value else "");
    assert IsHeader(SectionHeader(name));
    SectionShapeHeaders(KubeconfigLines(name, p), PasswordLoginLines(name, p), TokenLoginLines(name, p),
                        SkopeoLines(name), argo);
  }

  lemma {:induction false} SectionsHeaders(names: seq<string>, profiles: map<string, Profile>)
    requires forall n | n in names :: n in profiles
    ensures Headers(Sections(names, profiles)) == HeaderLines(names)
  {
    if names != [] {
      var init := names[..|names| - 1];
      var last := names[|names| - 1];
      SectionsHeaders(init, profiles);
      HeadersAppend(Sections(init, profiles), Section(last, profiles[last]));
      SectionHeaders(last, profiles[last]);
      assert init + [last] == names;
    }
  }

  /** The block has exactly one section header per profile, in key order. */
  lemma OneSectionPerProfile(s: Store)
    requires s.WellFormed()
    ensures Headers(BlockLines(s)) == HeaderLines(s.names)
  {
    var top := [SentinelBegin] + GlobalHelpers;
    var body := Sections(s.names, s.profiles);
    HeadersAppend(top + body, [SentinelEnd]);
    HeadersAppend(top, body);
    HelpersOrdinary();
    NoHeaders(top);
    NoHeaders([SentinelEnd]);
    SectionsHeaders(s.names, s.profiles);
  }

  // ---------------------------------------------------------------------
  // argocd-login-<name> exists exactly for profiles with an ArgoCD server

  lemma ArgoHeaderInjective(m: string, n: string)
    requires ArgoLoginHeader(m) == ArgoLoginHeader(n)
    ensures m == n
  {
    var hm := ArgoLoginHeader(m);
    assert hm[13..|hm| - 4] == m;
    assert ArgoLoginHeader(n)[13..|hm| - 4] == n;
  }

  lemma NotAmongOrdinary(lines: seq<string>, n: string)
    requires AllOrdinary(lines)
    ensures ArgoLoginHeader(n) !in lines
  {
    assert ArgoLoginHeader(n)[1] == 'r';
  }

  lemma SectionArgo(m: string, p: Profile, n: string)
    ensures ArgoLoginHeader(n) in Section(m, p) <==> m == n && Truthy(p.argocdServer)
  {
    var kc := KubeconfigLines(m, p);
    ProfileLinesOrdinary(m, p);
    NotAmongOrdinary(kc[1..], n);
    NotAmongOrdinary(PasswordLoginLines(m, p), n);
    NotAmongOrdinary(TokenLoginLines(m, p), n);
    NotAmongOrdinary(SkopeoLines(m), n);
    assert ArgoLoginHeader(n) != kc[0] by {
      assert ArgoLoginHeader(n)[1] == 'r' && kc[0][1] == ' ';
    }
    assert kc == [kc[0]] + kc[1..];
    ArgoLinesShape(m, if Truthy(p.argocdServer) then p.argocdServer.value else "");
    NotAmongOrdinary([""], n);
    if Truthy(p.argocdServer) {
      var a := ArgoLines(m, p.argocdServer.value);
      NotAmongOrdinary(a[1..], n);
      assert a == [ArgoLoginHeader(m)] + a[1..];
      if ArgoLoginHeader(n) == ArgoLoginHeader(m) {
        ArgoHeaderInjective(m, n);
      }
    }
  }

  lemma {:induction false} SectionsArgo(names: seq<string>, profiles: map<string, Profile>, n: string)
    requires forall m | m in names :: m in profiles
    ensures ArgoLoginHeader(n) in Sections(names, profiles)
            <==> n in names && Truthy(profiles[n].argocdServer)
  {
    if names != [] {
      var init := names[..|names| - 1];
      var last := names[|names| - 1];
      SectionsArgo(init, profiles, n);
      SectionArgo(last, profiles[last], n);
      assert names == init + [last];
    }
  }

  /**
   * `argocd-login-<n>` is defined in the block exactly when `n` is a profile
   * whose ArgoCD server is set and non-empty.
   */
  lemma ArgoLoginOnlyWhenConfigured(s: Store, n: string)
    requires s.WellFormed()
    ensures ArgoLoginHeader(n) in BlockLines(s)
            <==> n in s.profiles && Truthy(s.profiles[n].argocdServer)
  {
    HelpersOrdinary();
    NotAmongOrdinary([SentinelBegin] + GlobalHelpers, n);
    NotAmongOrdinary([SentinelEnd], n);
    SectionsArgo(s.names, s.profiles, n);
  }

  // ---------------------------------------------------------------------
  // The TLS-skip flag appears exactly for insecure profiles

  lemma QuotedAvoids(s: string, pat: string)
    requires |pat| > 1 && '"' !in pat && !Contains(s, pat)
    ensures !Contains(Quoted(s), pat)
  {
    if Contains(Quoted(s), pat) {
      SplitAtSeam("\"" + s, "\"", pat);
      if Contains("\"" + s, pat) {
        SplitAtSeam("\"", s, pat);
      }
    }
  }

  lemma SkipTlsWhenInsecure(start: string, server: string, kubeconfig: string)
    ensures Contains(LoginCommand(start, server, true, kubeconfig), InsecureFlag)
  {
    var before := start + Quoted(server) + " ";
    var after := " --kubeconfig=" + Quoted(kubeconfig);
    OccursBetween(before, InsecureFlag, after);
    assert LoginCommand(start, server, true, kubeconfig) == before + InsecureFlag + after;
  }

  lemma SecureCommandShape(start: string, server: string, kubeconfig: string)
    ensures LoginCommand(start, server, false, kubeconfig)
         == start + Quoted(server) + "  --kubeconfig=" + Quoted(kubeconfig)
  {
  }

  lemma LoginStartsAvoidFlag()
    ensures !Contains(PasswordLoginStart, InsecureFlag) && !Contains(TokenLoginStart, InsecureFlag)
  {
    assert 'y' !in OcLogin + " -u \"$user\" -p \"$pw\" --server=";
    assert 'y' !in OcLogin + " --token=\"$tok\" --server=";
    MissingChar(PasswordLoginStart, InsecureFlag, 'y');
    MissingChar(TokenLoginStart, InsecureFlag, 'y');
  }

  lemma NoSkipTlsWhenSecure(start: string, server: string, kubeconfig: string)
    requires start == PasswordLoginStart || start == TokenLoginStart
    requires !Contains(server, InsecureFlag) && !Contains(kubeconfig, InsecureFlag)
    ensures !Contains(LoginCommand(start, server, false, kubeconfig), InsecureFlag)
  {
    var line := LoginCommand(start, server, false, kubeconfig);
    var head := start + Quoted(server);
    var mid := "  --kubeconfig=";
    SecureCommandShape(start, server, kubeconfig);
    LoginStartsAvoidFlag();
    MissingChar(mid, InsecureFlag, 'y');
    QuotedAvoids(server, InsecureFlag);
    QuotedAvoids(kubeconfig, InsecureFlag);
    if Contains(line, InsecureFlag) {
      SplitAtSeam(head + mid, Quoted(kubeconfig), InsecureFlag);
      if Contains(head + mid, InsecureFlag) {
        SplitAtSeam(head, mid, InsecureFlag);
        if Contains(head, InsecureFlag) {
          SplitAtSeam(start, Quoted(server), InsecureFlag);
        }
      }
    }
  }

  /**
   * A login command carries `--insecure-skip-tls-verify=true` exactly when
   * the profile is insecure, provided neither interpolated value spells the
   * flag itself.
   */
  lemma SkipTlsIffInsecure(start: string, server: string, insecure: bool, kubeconfig: string)
    requires start == PasswordLoginStart || start == TokenLoginStart
    requires !Contains(server, InsecureFlag) && !Contains(kubeconfig, InsecureFlag)
    ensures Contains(LoginCommand(start, server, insecure, kubeconfig), InsecureFlag) <==> insecure
  {
    if insecure {
      SkipTlsWhenInsecure(start, server, kubeconfig);
    } else {
      NoSkipTlsWhenSecure(start, server, kubeconfig);
    }
  }

  /** Both login functions of a section pass the flag exactly for an insecure profile. */
  lemma SectionSkipsTlsIffInsecure(name: string, p: Profile)
    requires !Contains(p.server, InsecureFlag) && !Contains(p.kubeconfig, InsecureFlag)
    ensures Contains(Section(name, p)[7], InsecureFlag) <==> p.insecure
    ensures Contains(Section(name, p)[13], InsecureFlag) <==> p.insecure
  {
    SkipTlsIffInsecure(PasswordLoginStart, p.server, p.insecure, p.kubeconfig);
    SkipTlsIffInsecure(TokenLoginStart, p.server, p.insecure, p.kubeconfig);
  }


  // ---------------------------------------------------------------------
  // No other line of a section carries the flag

  /**
   * The flag without its first dash. Names and default users follow a `-`
   * (`oc-login-<name>`, `${1:-<user>}`), so a value holding this completes the flag.
   */
  const FlagTail := InsecureFlag[1..]

  /**
   * Why names must avoid the tail and not just the flag: the name
   * `-insecure-skip-tls-verify=true` lacks the flag, yet `oc-login-<name>() {` holds it.
   */
  lemma DashedNameCompletesFlag()
    ensures !Contains(FlagTail, InsecureFlag)
    ensures Contains(PasswordLoginLines(FlagTail, Profile("", "", "", false, "", None))[0], InsecureFlag)
  {
    ShortAvoids(FlagTail);
    assert InsecureFlag == [InsecureFlag[0]] + FlagTail;
    assert InsecureFlag[0] == '-';
    assert "oc-login" + InsecureFlag + "() {" == "oc-login-" + FlagTail + "() {";
    OccursBetween("oc-login", InsecureFlag, "() {");
  }

  /** The profile's values leave the flag to the `insecure` field. */
  predicate ValuesAvoidFlag(name: string, p: Profile) {
    && !Contains(name, FlagTail) && !Contains(p.userDefault, FlagTail)
    && !Contains(p.server, InsecureFlag) && !Contains(p.kubeconfig, InsecureFlag)
    && (Truthy(p.argocdServer) ==> !Contains(p.argocdServer.value, InsecureFlag))
  }

  predicate FlagFree(lines: seq<string>) {
    forall k | 0 <= k < |lines| :: !Contains(lines[k], InsecureFlag)
  }

  predicate HasFlag(lines: seq<string>) {
    exists k | 0 <= k < |lines| :: Contains(lines[k], InsecureFlag)
  }

  /** Characters the flag lacks; the fixed text is cut into pieces at them. */
  predicate Breaks(c: char) {
    c == ' ' || c == '"' || c == ';' || c == ':' || c == '(' || c == ')' || c == '{' || c == '}'
  }

  lemma BreaksOutsideFlag(c: char)
    requires Breaks(c)
    ensures c !in InsecureFlag
  {
  }

  lemma ShortAvoids(s: string)
    requires |s| < |InsecureFlag|
    ensures !Contains(s, InsecureFlag)
  {
  }

  lemma TailAvoided(v: string)
    requires !Contains(v, FlagTail)
    ensures !Contains(v, InsecureFlag)
  {
    if Contains(v, InsecureFlag) {
      var i: nat :| i <= |v| && OccursAt(v, InsecureFlag, i);
      assert v[i + 1..i + |InsecureFlag|] == v[i..i + |InsecureFlag|][1..];
      assert OccursAt(v, FlagTail, i + 1);
    }
  }

  /** Two flag-free texts stay flag-free when a character the flag lacks sits at the seam. */
  lemma JoinAvoids(a: string, b: string)
    requires !Contains(a, InsecureFlag) && !Contains(b, InsecureFlag)
    requires (a != [] && Breaks(a[|a| - 1])) || (b != [] && Breaks(b[0]))
    ensures !Contains(a + b, InsecureFlag)
  {
    if a != [] && Breaks(a[|a| - 1]) {
      BreaksOutsideFlag(a[|a| - 1]);
    } else {
      BreaksOutsideFlag(b[0]);
    }
    if Contains(a + b, InsecureFlag) {
      SplitAtSeam(a, b, InsecureFlag);
    }
  }

  /** A flag-free text cut at a break stays flag-free when a piece shorter than the flag follows. */
  lemma Extend(a: string, b: string)
    requires !Contains(a, InsecureFlag) && a != [] && Breaks(a[|a| - 1]) && |b| < |InsecureFlag|
    ensures !Contains(a + b, InsecureFlag)
  {
    ShortAvoids(b);
    JoinAvoids(a, b);
  }

  lemma IndentedAvoids(line: string)
    requires !Contains(line, InsecureFlag)
    ensures !Contains(Indented(line), InsecureFlag)
  {
    ShortAvoids("  ");
    JoinAvoids("  ", line);
  }

  lemma NoDoubleDash(x: string)
    requires forall i | 0 <= i < |x| - 1 :: x[i] != '-' || x[i + 1] != '-'
    ensures !Contains(x, "--")
  {
    if Contains(x, "--") {
      var i: nat :| i <= |x| && OccursAt(x, "--", i);
      OccurrenceChar(x, "--", i, 0);
      OccurrenceChar(x, "--", i, 1);
    }
  }

  /**
   * A value between a prefix without `--` and a flag-free suffix that opens
   * with a break adds no flag, unless it holds the flag's tail.
   */
  lemma AfterDashAvoids(x: string, v: string, y: string)
    requires !Contains(x, "--") && !Contains(v, FlagTail)
    requires !Contains(y, InsecureFlag) && y != [] && Breaks(y[0])
    ensures !Contains(x + v + y, InsecureFlag)
  {
    var s := x + v;
    TailAvoided(v);
    forall k: nat | k <= |s| ensures !OccursAt(s, InsecureFlag, k) {
      if OccursAt(s, InsecureFlag, k) {
        if k >= |x| {
          assert s[k..k + |InsecureFlag|] == v[k - |x|..k - |x| + |InsecureFlag|];
          assert OccursAt(v, InsecureFlag, k - |x|);
        } else if k + 2 <= |x| {
          OccurrenceChar(s, InsecureFlag, k, 0);
          OccurrenceChar(s, InsecureFlag, k, 1);
          assert x[k..k + 2] == "--";
          assert OccursAt(x, "--", k);
        } else {
          StraddleAtLastChar(x, v);
        }
      }
    }
    JoinAvoids(s, y);
  }

  /** A flag that starts at the last character of `x` leaves its tail at the start of `v`. */
  lemma StraddleAtLastChar(x: string, v: string)
    requires |x| > 0 && OccursAt(x + v, InsecureFlag, |x| - 1)
    ensures OccursAt(v, FlagTail, 0)
  {
    var s, k := x + v, |x| - 1;
    assert s[k + 1..k + |InsecureFlag|] == s[k..k + |InsecureFlag|][1..];
    assert s[k + 1..k + |InsecureFlag|] == v[..|FlagTail|];
  }

  /** A function header `<prefix><name>() {` carries no flag. */
  lemma HeaderAvoids(prefix: string, name: string)
    requires !Contains(prefix, "--") && !Contains(name, FlagTail)
    ensures !Contains(prefix + name + "() {", InsecureFlag)
  {
    ShortAvoids("() {");
    AfterDashAvoids(prefix, name, "() {");
  }

  lemma OcBinLineAvoids()
    ensures !Contains(OcBinLine, InsecureFlag)
  {
    var a, b := "OC_BIN=\"${OC_BIN:", "-$HOME/.local/bin/oc}\"";
    ShortAvoids(a);
    Extend(a, b);
    IndentedAvoids(a + b);
  }

  lemma PasswordPromptAvoids()
    ensures !Contains(PasswordPrompt, InsecureFlag)
  {
    var a, b, c, d := "printf \"Senha (%s): \" ", "\"$user\" 1>&2; stty -echo; ", "read -r pw; stty echo; ", "printf \"\\n\" 1>&2";
    ShortAvoids(a);
    Extend(a, b);
    Extend(a + b, c);
    Extend(a + b + c, d);
    IndentedAvoids(a + b + c + d);
  }

  lemma TokenDefaultAvoids()
    ensures !Contains(TokenDefault, InsecureFlag)
  {
    var a, b := "local ", "tok=\"${1:-${OCP_TOKEN}}\";";
    ShortAvoids(a);
    Extend(a, b);
    IndentedAvoids(a + b);
  }

  lemma TokenPromptAvoids()
    ensures !Contains(TokenPrompt, InsecureFlag)
  {
    var a, b, c, d, e := "if [ -z \"$tok\" ]; then ", "printf \"Token: \" 1>&2; ", "stty -echo; read -r tok; ",
                         "stty echo; printf \"\\n\" 1>&2; ", "fi";
    ShortAvoids(a);
    Extend(a, b);
    Extend(a + b, c);
    Extend(a + b + c, d);
    Extend(a + b + c + d, e);
    IndentedAvoids(a + b + c + d + e);
  }

  lemma WhoamiCheckAvoids()
    ensures !Contains(WhoamiCheck, InsecureFlag)
  {
    var a, b, c, d, e := "if ! \"$OC_BIN\" whoami ", ">/dev/null 2>&1; then ", "echo \"Fa\U{E7}a oc-login ",
                         "primeiro.\" 1>&2; ", "return 1; fi";
    ShortAvoids(a);
    Extend(a, b);
    Extend(a + b, c);
    Extend(a + b + c, d);
    Extend(a + b + c + d, e);
    IndentedAvoids(a + b + c + d + e);
  }

  lemma RouteLookupAvoids()
    ensures !Contains(RouteLookup, InsecureFlag)
  {
    var a, b, c, d, e, f := "local host; ", "host=$(\"$OC_BIN\" -n ", "openshift-image-registry ",
                            "get route default-route ", "-o jsonpath=\"{.spec.host}\" ", "2>/dev/null)";
    ShortAvoids(a);
    Extend(a, b);
    Extend(a + b, c);
    Extend(a + b + c, d);
    Extend(a + b + c + d, e);
    Extend(a + b + c + d + e, f);
    IndentedAvoids(a + b + c + d + e + f);
  }

  lemma RouteCheckAvoids()
    ensures !Contains(RouteCheck, InsecureFlag)
  {
    var a, b, c, d, e, f := "if [ -z \"$host\" ]; then ", "echo \"default-route do ", "image-registry n\U{E3}o ",
                            "encontrado (verifique ", "a exposi\U{E7}\U{E3}o externa).\" ", "1>&2; return 2; fi";
    ShortAvoids(a);
    Extend(a, b);
    Extend(a + b, c);
    Extend(a + b + c, d);
    Extend(a + b + c + d, e);
    Extend(a + b + c + d + e, f);
    IndentedAvoids(a + b + c + d + e + f);
  }

  lemma TokenLookupAvoids()
    ensures !Contains(TokenLookup, InsecureFlag)
  {
    var a, b := "local tok; ", "tok=$(\"$OC_BIN\" whoami -t)";
    ShortAvoids(a);
    Extend(a, b);
    IndentedAvoids(a + b);
  }

  lemma SkopeoLoginAvoids()
    ensures !Contains(SkopeoLogin, InsecureFlag)
  {
    var a, b, c := "skopeo login ", "--tls-verify=false -u unused ", "-p \"$tok\" \"$host\"";
    ShortAvoids(a);
    Extend(a, b);
    Extend(a + b, c);
    IndentedAvoids(a + b + c);
  }

  lemma ArgoPromptAvoids()
    ensures !Contains(ArgoPrompt, InsecureFlag)
  {
    var a, b, c, d := "printf \"Senha ArgoCD (%s): \" ", "\"$user\" 1>&2; stty -echo; ", "read -r pw; stty echo; ",
                      "printf \"\\n\" 1>&2";
    ShortAvoids(a);
    Extend(a, b);
    Extend(a + b, c);
    Extend(a + b + c, d);
    IndentedAvoids(a + b + c + d);
  }

  /** A text as long as the flag but ending differently is not the flag. */
  lemma FlagLengthAvoids(s: string)
    requires |s| == |InsecureFlag| && s[|s| - 1] != InsecureFlag[|InsecureFlag| - 1]
    ensures !Contains(s, InsecureFlag)
  {
  }

  lemma OneLineFunctionAvoids(name: string, body: string)
    requires |name| < |InsecureFlag| && !Contains(body, InsecureFlag)
    ensures !Contains(OneLineFunction(name, body), InsecureFlag)
  {
    ShortAvoids(name);
    ShortAvoids("(){ ");
    JoinAvoids(name, "(){ ");
    JoinAvoids(name + "(){ ", body);
    ShortAvoids(" }");
    JoinAvoids(name + "(){ " + body, " }");
  }

  lemma KubectlAliasesAvoid()
    ensures FlagFree([SentinelBegin] + KubectlAliases)
  {
    var g := [SentinelBegin] + KubectlAliases;
    FlagLengthAvoids(SentinelBegin);
    ShortAvoids(g[1]); ShortAvoids(g[2]); ShortAvoids(g[3]); ShortAvoids(g[4]); ShortAvoids(g[5]);
    ShortAvoids(g[6]); ShortAvoids(g[7]); ShortAvoids(g[8]); ShortAvoids(g[10]); ShortAvoids(g[11]);
    ShortAvoids("alias kdp=\"kubectl ");
    Extend("alias kdp=\"kubectl ", "describe pod\"");
  }

  lemma ContextHelpersAvoid()
    ensures FlagFree(ContextHelpers) && FlagFree([SentinelEnd])
  {
    var a := "if [ -z \"$1\" ]; then ";
    ShortAvoids(a);
    var kns := a + "echo \"uso: kns <namespace>\"; ";
    Extend(a, "echo \"uso: kns <namespace>\"; ");
    Extend(kns, "return 2; fi; ");
    Extend(kns + "return 2; fi; ", "kubectl config ");
    Extend(kns + "return 2; fi; " + "kubectl config ", "set-context --current ");
    Extend(kns + "return 2; fi; " + "kubectl config " + "set-context --current ", "--namespace=\"$1\";");
    OneLineFunctionAvoids("kns", kns + "return 2; fi; " + "kubectl config " + "set-context --current " + "--namespace=\"$1\";");
    var kctx := a + "kubectl config get-contexts; ";
    Extend(a, "kubectl config get-contexts; ");
    Extend(kctx, "return; fi; ");
    Extend(kctx + "return; fi; ", "kubectl config use-context ");
    Extend(kctx + "return; fi; " + "kubectl config use-context ", "\"$1\";");
    OneLineFunctionAvoids("kctx", kctx + "return; fi; " + "kubectl config use-context " + "\"$1\";");
    var use := a + "echo \"uso: " + "use-kcfg <perfil>\"; " + "return 2; fi; ";
    Extend(a, "echo \"uso: ");
    Extend(a + "echo \"uso: ", "use-kcfg <perfil>\"; ");
    Extend(a + "echo \"uso: " + "use-kcfg <perfil>\"; ", "return 2; fi; ");
    Extend(use, "export ");
    Extend(use + "export ", "KUBECONFIG=\"");
    Extend(use + "export " + "KUBECONFIG=\"", "$HOME/.kube/config-$1\"; ");
    Extend(use + "export " + "KUBECONFIG=\"" + "$HOME/.kube/config-$1\"; ", "echo \"KUBECONFIG=$KUBECONFIG\";");
    OneLineFunctionAvoids("use-kcfg", use + "export " + "KUBECONFIG=\"" + "$HOME/.kube/config-$1\"; "
                                      + "echo \"KUBECONFIG=$KUBECONFIG\";");
    ShortAvoids("");
    FlagLengthAvoids(SentinelEnd);
  }

  lemma KubeconfigLinesAvoid(name: string, p: Profile)
    requires !Contains(name, FlagTail) && !Contains(p.kubeconfig, InsecureFlag)
    ensures FlagFree(KubeconfigLines(name, p))
  {
    var open, c1, c2 := "() { export KUBECONFIG=\"", "\"; echo ", "\"KUBECONFIG=$KUBECONFIG\"; }";
    TailAvoided(name);
    ShortAvoids(HeaderPrefix);
    JoinAvoids(HeaderPrefix, name);
    ShortAvoids(open);
    NoDoubleDash("use-kcfg-");
    AfterDashAvoids("use-kcfg-", name, open);
    var left := "use-kcfg-" + name + open;
    JoinAvoids(left, p.kubeconfig);
    ShortAvoids(c1);
    JoinAvoids(left + p.kubeconfig, c1);
    Extend(left + p.kubeconfig + c1, c2);
    ShortAvoids("");
  }

  lemma PasswordLoginLinesAvoid(name: string, p: Profile)
    requires !Contains(name, FlagTail) && !Contains(p.userDefault, FlagTail)
    ensures var pw := PasswordLoginLines(name, p);
            forall k | 0 <= k < |pw| && k != 4 :: !Contains(pw[k], InsecureFlag)
  {
    NoDoubleDash("oc-login-");
    HeaderAvoids("oc-login-", name);
    OcBinLineAvoids();
    NoDoubleDash("  local user=\"${1:-");
    ShortAvoids("}\"");
    AfterDashAvoids("  local user=\"${1:-", p.userDefault, "}\"");
    PasswordPromptAvoids();
    ShortAvoids("}");
  }

  lemma TokenLoginLinesAvoid(name: string, p: Profile)
    requires !Contains(name, FlagTail)
    ensures var tk := TokenLoginLines(name, p);
            forall k | 0 <= k < |tk| && k != 4 :: !Contains(tk[k], InsecureFlag)
  {
    NoDoubleDash("oc-login-token-");
    HeaderAvoids("oc-login-token-", name);
    OcBinLineAvoids();
    TokenDefaultAvoids();
    TokenPromptAvoids();
    ShortAvoids("}");
  }

  lemma SkopeoLinesAvoid(name: string)
    requires !Contains(name, FlagTail)
    ensures FlagFree(SkopeoLines(name))
  {
    NoDoubleDash("skopeo-login-internal-");
    HeaderAvoids("skopeo-login-internal-", name);
    OcBinLineAvoids();
    WhoamiCheckAvoids();
    RouteLookupAvoids();
    RouteCheckAvoids();
    TokenLookupAvoids();
    SkopeoLoginAvoids();
    ShortAvoids("}");
  }

  lemma ArgoLinesAvoid(name: string, host: string)
    requires !Contains(name, FlagTail) && !Contains(host, InsecureFlag)
    ensures FlagFree(ArgoLines(name, host))
  {
    var open, c1, c2 := "  argocd login \"", "\" --username \"$user\" ", "--password \"$pw\" --insecure";
    NoDoubleDash("argocd-login-");
    HeaderAvoids("argocd-login-", name);
    ShortAvoids(ArgoUserDefault);
    ArgoPromptAvoids();
    ShortAvoids(open);
    JoinAvoids(open, host);
    ShortAvoids(c1);
    JoinAvoids(open + host, c1);
    Extend(open + host + c1, c2);
    ShortAvoids("}");
  }

  lemma {:induction false} HasFlagAppend(a: seq<string>, b: seq<string>)
    ensures HasFlag(a + b) <==> HasFlag(a) || HasFlag(b)
  {
    if HasFlag(a + b) {
      var k :| 0 <= k < |a + b| && Contains((a + b)[k], InsecureFlag);
      if k < |a| {
        assert (a + b)[k] == a[k];
      } else {
        assert (a + b)[k] == b[k - |a|];
      }
    }
    if HasFlag(a) {
      var k :| 0 <= k < |a| && Contains(a[k], InsecureFlag);
      assert (a + b)[k] == a[k];
    }
    if HasFlag(b) {
      var k :| 0 <= k < |b| && Contains(b[k], InsecureFlag);
      assert (a + b)[|a| + k] == b[k];
    }
  }

  /**
   * Of all the lines of a section only the two login commands can carry the
   * flag, and they carry it exactly when the profile is insecure.
   */
  lemma SectionFlagOnlyInLogins(name: string, p: Profile)
    requires ValuesAvoidFlag(name, p)
    ensures forall k | 0 <= k < |Section(name, p)| ::
              Contains(Section(name, p)[k], InsecureFlag) <==> p.insecure && (k == 7 || k == 13)
    ensures HasFlag(Section(name, p)) <==> p.insecure
  {
    var kc, pw, tk, sk := KubeconfigLines(name, p), PasswordLoginLines(name, p), TokenLoginLines(name, p), SkopeoLines(name);
    var argo := if Truthy(p.argocdServer) then ArgoLines(name, p.argocdServer.value) else [];
    var sec := Section(name, p);
    assert sec == kc + pw + tk + sk + argo + [""];
    KubeconfigLinesAvoid(name, p);
    PasswordLoginLinesAvoid(name, p);
    TokenLoginLinesAvoid(name, p);
    SkopeoLinesAvoid(name);
    if Truthy(p.argocdServer) {
      ArgoLinesAvoid(name, p.argocdServer.value);
    }
    ShortAvoids("");
    SectionSkipsTlsIffInsecure(name, p);
    forall k | 0 <= k < |sec| ensures Contains(sec[k], InsecureFlag) <==> p.insecure && (k == 7 || k == 13) {
      if k < 3 {
        assert sec[k] == kc[k];
      } else if k < 9 {
        assert sec[k] == pw[k - 3];
      } else if k < 15 {
        assert sec[k] == tk[k - 9];
      } else if k < 23 {
        assert sec[k] == sk[k - 15];
      } else if k < 23 + |argo| {
        assert sec[k] == argo[k - 23];
      } else {
        assert sec[k] == "";
      }
    }
    if p.insecure {
      assert Contains(sec[7], InsecureFlag);
    }
  }

  lemma {:induction false} SectionsFlag(names: seq<string>, profiles: map<string, Profile>)
    requires forall n | n in names :: n in profiles && ValuesAvoidFlag(n, profiles[n])
    ensures HasFlag(Sections(names, profiles)) <==> exists n | n in names :: profiles[n].insecure
  {
    if names != [] {
      var init := names[..|names| - 1];
      var last := names[|names| - 1];
      assert names == init + [last];
      SectionsFlag(init, profiles);
      SectionFlagOnlyInLogins(last, profiles[last]);
      HasFlagAppend(Sections(init, profiles), Section(last, profiles[last]));
    }
  }

  /**
   * The rendered block passes the TLS-skip flag somewhere exactly when some
   * profile is insecure, provided no profile's values spell the flag.
   */
  lemma BlockSkipsTlsIffSomeInsecure(s: Store)
    requires s.WellFormed()
    requires forall n | n in s.profiles :: ValuesAvoidFlag(n, s.profiles[n])
    ensures HasFlag(BlockLines(s)) <==> exists n | n in s.profiles :: s.profiles[n].insecure
  {
    var body := Sections(s.names, s.profiles);
    var head := [SentinelBegin] + KubectlAliases;
    assert BlockLines(s) == head + ContextHelpers + body + [SentinelEnd];
    KubectlAliasesAvoid();
    ContextHelpersAvoid();
    HasFlagAppend(head, ContextHelpers);
    HasFlagAppend(head + ContextHelpers, body);
    HasFlagAppend(head + ContextHelpers + body, [SentinelEnd]);
    SectionsFlag(s.names, s.profiles);
  }
}
