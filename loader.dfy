/**
 * The dynamic loader generator: from one list of command names it derives
 * three parallel line lists, the `extern` function-pointer declarations of
 * the header, the matching definitions of the source file, and the
 * statements of the `Load<API>` function that resolve each pointer by name
 * through `loadProc`. It also fixes the sequence of EGL features whose
 * commands are requested from the registry.
 */
module Loader {
  import opened Wrappers
  import opened PyStr

  /** `if prefix == None: prefix = api`: an absent prefix defaults to the API name. */
  function ResolvePrefix(api: string, prefix: Option<string>): (p: string)
    ensures prefix.None? ==> p == api
    ensures prefix.Some? ==> p == prefix.value
  {
    match prefix
    case None => api
    case Some(p) => p
  }

  /**
   * `pre(cmd)`: `prefix + cmd[len(api):]`. Python's slice is empty, not an
   * error, when the command is shorter than the API name.
   */
  function Pre(prefix: string, api: string, cmd: string): (r: string)
    ensures |cmd| >= |api| ==> prefix <= r && |r| == |prefix| + |cmd| - |api| && r[|prefix|..] == cmd[|api|..]
    ensures |cmd| < |api| ==> r == prefix
  {
    prefix + (if |api| <= |cmd| then cmd[|api|..] else "")
  }

  /** The function-pointer type name `PFN<UPPER>PROC`. */
  function TypeName(cmd: string): string {
    "PFN" + Upper(cmd) + "PROC"
  }

  /** The variable holding the pointer: namespace tag followed by the substituted name. */
  function VariableName(api: string, ns: string, prefix: string, cmd: string): string {
    ns + Pre(prefix, api, cmd)
  }

  /** `"extern PFN%sPROC %s%s;" % (cmd.upper(), ns, pre(cmd))`. */
  function VarProto(api: string, ns: string, prefix: string, cmd: string): string {
    "extern PFN" + Upper(cmd) + "PROC " + ns + Pre(prefix, api, cmd) + ";"
  }

  /** `"PFN%sPROC %s%s;" % (cmd.upper(), ns, pre(cmd))`. */
  function VarDef(api: string, ns: string, prefix: string, cmd: string): string {
    "PFN" + Upper(cmd) + "PROC " + ns + Pre(prefix, api, cmd) + ";"
  }

  /** The `setter` format filled with `(ns, pre(cmd), cmd.upper(), pre(cmd))`. */
  function Setter(api: string, ns: string, prefix: string, cmd: string): string {
    "    " + ns + Pre(prefix, api, cmd) + " = reinterpret_cast<PFN" + Upper(cmd) + "PROC>(loadProc(\""
      + Pre(prefix, api, cmd) + "\"));"
  }

  /** `var_protos`: one declaration per command, in command order. */
  function VarProtos(cmds: seq<string>, api: string, ns: string, prefix: string): (r: seq<string>)
    ensures |r| == |cmds|
    ensures forall i :: 0 <= i < |cmds| ==> r[i] == VarProto(api, ns, prefix, cmds[i])
  {
    if cmds == [] then [] else [VarProto(api, ns, prefix, cmds[0])] + VarProtos(cmds[1..], api, ns, prefix)
  }

  /** `var_defs`: one definition per command, in command order. */
  function VarDefs(cmds: seq<string>, api: string, ns: string, prefix: string): (r: seq<string>)
    ensures |r| == |cmds|
    ensures forall i :: 0 <= i < |cmds| ==> r[i] == VarDef(api, ns, prefix, cmds[i])
  {
    if cmds == [] then [] else [VarDef(api, ns, prefix, cmds[0])] + VarDefs(cmds[1..], api, ns, prefix)
  }

  /** `setters`: one assignment per command, in command order. */
  function Setters(cmds: seq<string>, api: string, ns: string, prefix: string): (r: seq<string>)
    ensures |r| == |cmds|
    ensures forall i :: 0 <= i < |cmds| ==> r[i] == Setter(api, ns, prefix, cmds[i])
  {
    if cmds == [] then [] else [Setter(api, ns, prefix, cmds[0])] + Setters(cmds[1..], api, ns, prefix)
  }

  /** The per-command part of the generated source file. */
  datatype SourceLines = SourceLines(varDefs: seq<string>, setters: seq<string>)

  /**
   * The per-command lines `write_header` joins into the header: line i
   * declares the variable of command i with its function-pointer type.
   */
  function WriteHeader(allCmds: seq<string>, api: string, ns: string, prefix: Option<string>): (header: seq<string>)
    ensures |header| == |allCmds|
    ensures forall i :: 0 <= i < |allCmds| ==>
              header[i] == "extern " + TypeName(allCmds[i]) + " "
                           + VariableName(api, ns, ResolvePrefix(api, prefix), allCmds[i]) + ";"
  {
    var p := ResolvePrefix(api, prefix);
    AllLineShapes(allCmds, api, ns, p);
    VarProtos(allCmds, api, ns, p)
  }

  /**
   * The per-command lines `write_source` joins into the source file: definition
   * i defines the variable of command i, and setter i assigns it the pointer
   * `loadProc` returns for the substituted name, cast to its type.
   */
  function WriteSource(allCmds: seq<string>, api: string, ns: string, prefix: Option<string>): (source: SourceLines)
    ensures |source.varDefs| == |source.setters| == |allCmds|
    ensures forall i :: 0 <= i < |allCmds| ==>
              source.varDefs[i] == TypeName(allCmds[i]) + " "
                                   + VariableName(api, ns, ResolvePrefix(api, prefix), allCmds[i]) + ";"
    ensures forall i :: 0 <= i < |allCmds| ==>
              source.setters[i] == "    " + VariableName(api, ns, ResolvePrefix(api, prefix), allCmds[i])
                                   + " = reinterpret_cast<" + TypeName(allCmds[i]) + ">(loadProc(\""
                                   + Pre(ResolvePrefix(api, prefix), api, allCmds[i]) + "\"));"
  {
    var p := ResolvePrefix(api, prefix);
    AllLineShapes(allCmds, api, ns, p);
    SourceLines(VarDefs(allCmds, api, ns, p), Setters(allCmds, api, ns, p))
  }

  /** Proof helper: the three literal line formats, regrouped around the type and variable names. */
  lemma LineShapes(api: string, ns: string, p: string, cmd: string)
    ensures VarProto(api, ns, p, cmd) == "extern " + VarDef(api, ns, p, cmd)
    ensures VarProto(api, ns, p, cmd) == "extern " + TypeName(cmd) + " " + VariableName(api, ns, p, cmd) + ";"
    ensures VarDef(api, ns, p, cmd) == TypeName(cmd) + " " + VariableName(api, ns, p, cmd) + ";"
    ensures Setter(api, ns, p, cmd) == "    " + VariableName(api, ns, p, cmd) + " = reinterpret_cast<"
                                       + TypeName(cmd) + ">(loadProc(\"" + Pre(p, api, cmd) + "\"));"
  {
    var u, v := Upper(cmd), Pre(p, api, cmd);
    ExternSplit(u, ns, v);
    DefinitionSplit(u, ns, v);
    SetterSplit(u, ns, v);
    assert "extern " + (("PFN" + u + "PROC") + " " + (ns + v) + ";")
        == "extern " + ("PFN" + u + "PROC") + " " + (ns + v) + ";";
  }

  /** Proof helper: `LineShapes` for every command of a list. */
  lemma AllLineShapes(cmds: seq<string>, api: string, ns: string, p: string)
    ensures forall i :: 0 <= i < |cmds| ==>
      && VarProto(api, ns, p, cmds[i]) == "extern " + TypeName(cmds[i]) + " " + VariableName(api, ns, p, cmds[i]) + ";"
      && VarDef(api, ns, p, cmds[i]) == TypeName(cmds[i]) + " " + VariableName(api, ns, p, cmds[i]) + ";"
      && Setter(api, ns, p, cmds[i]) == "    " + VariableName(api, ns, p, cmds[i]) + " = reinterpret_cast<"
                                        + TypeName(cmds[i]) + ">(loadProc(\"" + Pre(p, api, cmds[i]) + "\"));"
  {
    forall i | 0 <= i < |cmds| {
      LineShapes(api, ns, p, cmds[i]);
    }
  }

  // ---------------------------------------------------------------------------
  // Properties of name derivation
  // ---------------------------------------------------------------------------

  /** With the default prefix, `pre` leaves a command that starts with the API name unchanged. */
  lemma DefaultPrefixIsIdentity(api: string, cmd: string)
    requires api <= cmd
    ensures Pre(ResolvePrefix(api, None), api, cmd) == cmd
  {
  }

  /** Commands that start with the API name get distinct substituted names. */
  lemma PreInjective(prefix: string, api: string, cmd1: string, cmd2: string)
    requires api <= cmd1 && api <= cmd2
    requires Pre(prefix, api, cmd1) == Pre(prefix, api, cmd2)
    ensures cmd1 == cmd2
  {
  }

  // ---------------------------------------------------------------------------
  // Consistency of header and source
  // ---------------------------------------------------------------------------

  /**
   * Header and source have one line per command each, index by index: the
   * header's line is `extern ` followed by the source's definition, and the
   * setter assigns that same variable, casting to that same type and loading
   * the substituted name.
   */
  lemma {:induction false} HeaderMatchesSource(allCmds: seq<string>, api: string, ns: string, prefix: Option<string>)
    ensures var header := WriteHeader(allCmds, api, ns, prefix);
      var source := WriteSource(allCmds, api, ns, prefix);
      var p := ResolvePrefix(api, prefix);
      && |header| == |source.varDefs| == |source.setters| == |allCmds|
      && forall i :: 0 <= i < |allCmds| ==>
           && header[i] == "extern " + source.varDefs[i]
           && source.varDefs[i] == TypeName(allCmds[i]) + " " + VariableName(api, ns, p, allCmds[i]) + ";"
           && source.setters[i] == "    " + VariableName(api, ns, p, allCmds[i]) + " = reinterpret_cast<"
                                   + TypeName(allCmds[i]) + ">(loadProc(\"" + Pre(p, api, allCmds[i]) + "\"));"
  {
    var header := WriteHeader(allCmds, api, ns, prefix);
    var source := WriteSource(allCmds, api, ns, prefix);
    var p := ResolvePrefix(api, prefix);
    forall i | 0 <= i < |allCmds|
      ensures header[i] == "extern " + source.varDefs[i]
      ensures source.varDefs[i] == TypeName(allCmds[i]) + " " + VariableName(api, ns, p, allCmds[i]) + ";"
      ensures source.setters[i] == "    " + VariableName(api, ns, p, allCmds[i]) + " = reinterpret_cast<"
                                   + TypeName(allCmds[i]) + ">(loadProc(\"" + Pre(p, api, allCmds[i]) + "\"));"
    {
      LineShapes(api, ns, p, allCmds[i]);
    }
  }

  /** Proof helper: regrouping the concatenation of an `extern` line. */
  lemma ExternSplit(u: string, ns: string, v: string)
    ensures "extern PFN" + u + "PROC " + ns + v + ";" == "extern " + ("PFN" + u + "PROC " + ns + v + ";")
  {
  }

  /** Proof helper: regrouping the concatenation of a definition line. */
  lemma DefinitionSplit(u: string, ns: string, v: string)
    ensures "PFN" + u + "PROC " + ns + v + ";" == ("PFN" + u + "PROC") + " " + (ns + v) + ";"
  {
  }

  /** Proof helper: regrouping the concatenation of a setter line. */
  lemma SetterSplit(u: string, ns: string, v: string)
    ensures "    " + ns + v + " = reinterpret_cast<PFN" + u + "PROC>(loadProc(\"" + v + "\"));"
         == "    " + (ns + v) + " = reinterpret_cast<" + ("PFN" + u + "PROC") + ">(loadProc(\"" + v + "\"));"
  {
  }

  /**
   * When the commands are distinct and all start with the API name, the
   * declared variables are distinct: each variable of the header has exactly
   * one definition and one assignment in the source.
   */
  lemma VariablesDeclaredOnce(allCmds: seq<string>, api: string, ns: string, prefix: Option<string>)
    requires forall i, j :: 0 <= i < j < |allCmds| ==> allCmds[i] != allCmds[j]
    requires forall i :: 0 <= i < |allCmds| ==> api <= allCmds[i]
    ensures var p := ResolvePrefix(api, prefix);
      forall i, j ::
        (0 <= i < |allCmds| && 0 <= j < |allCmds| &&
         VariableName(api, ns, p, allCmds[i]) == VariableName(api, ns, p, allCmds[j])) ==> i == j
  {
    var p := ResolvePrefix(api, prefix);
    forall i, j | 0 <= i < |allCmds| && 0 <= j < |allCmds| &&
                  VariableName(api, ns, p, allCmds[i]) == VariableName(api, ns, p, allCmds[j])
      ensures i == j
    {
      var v1, v2 := Pre(p, api, allCmds[i]), Pre(p, api, allCmds[j]);
      assert ns + v1 == ns + v2;
      assert v1 == (ns + v1)[|ns|..] && v2 == (ns + v2)[|ns|..];
      PreInjective(p, api, allCmds[i], allCmds[j]);
    }
  }

  // ---------------------------------------------------------------------------
  // gen_libegl_loader
  // ---------------------------------------------------------------------------

  /** The `[major, minor]` pairs of the EGL versions whose commands are requested. */
  const EglVersions: seq<(nat, nat)> := [(1, 0), (1, 1), (1, 2), (1, 3), (1, 4), (1, 5)]

  /** One `xml.AddCommands(feature_name, annotation)` request. */
  datatype FeatureRequest = FeatureRequest(featureName: string, annotation: string)

  /** `"{}_{}".format(major_version, minor_version)`. */
  function Annotation(version: (nat, nat)): string {
    DecimalString(version.0) + "_" + DecimalString(version.1)
  }

  /** The requests of the loop over the versions, in loop order. */
  function FeatureRequests(versions: seq<(nat, nat)>): (r: seq<FeatureRequest>)
    ensures |r| == |versions|
    ensures forall i :: 0 <= i < |versions| ==>
              r[i].annotation == Annotation(versions[i]) && r[i].featureName == "EGL_VERSION_" + r[i].annotation
  {
    if versions == [] then []
    else
      var annotation := Annotation(versions[0]);
      [FeatureRequest("EGL_VERSION_" + annotation, annotation)] + FeatureRequests(versions[1..])
  }

  /** The EGL feature names requested are `EGL_VERSION_1_0` through `EGL_VERSION_1_5`, in that order. */
  lemma EglFeatureNames()
    ensures FeatureRequests(EglVersions) == [
      FeatureRequest("EGL_VERSION_1_0", "1_0"), FeatureRequest("EGL_VERSION_1_1", "1_1"),
      FeatureRequest("EGL_VERSION_1_2", "1_2"), FeatureRequest("EGL_VERSION_1_3", "1_3"),
      FeatureRequest("EGL_VERSION_1_4", "1_4"), FeatureRequest("EGL_VERSION_1_5", "1_5")]
  {
    var r := FeatureRequests(EglVersions);
    assert DecimalString(1) == "1";
    assert r[0].annotation == "1_0" && r[1].annotation == "1_1" && r[2].annotation == "1_2";
    assert r[3].annotation == "1_3" && r[4].annotation == "1_4" && r[5].annotation == "1_5";
    assert r[0] == FeatureRequest("EGL_VERSION_1_0", "1_0");
    assert r[1] == FeatureRequest("EGL_VERSION_1_1", "1_1");
    assert r[2] == FeatureRequest("EGL_VERSION_1_2", "1_2");
    assert r[3] == FeatureRequest("EGL_VERSION_1_3", "1_3");
    assert r[4] == FeatureRequest("EGL_VERSION_1_4", "1_4");
    assert r[5] == FeatureRequest("EGL_VERSION_1_5", "1_5");
  }

  /**
   * The header and source lines of libEGL's loader: API "egl", no namespace
   * tag, prefix "EGL_". Each declaration is `extern` followed by the matching
   * definition, and a command `egl<Rest>` is held in the variable `EGL_<Rest>`.
   */
  function GenLibEglLoader(allCmds: seq<string>): (r: (seq<string>, SourceLines))
    ensures |r.0| == |r.1.varDefs| == |r.1.setters| == |allCmds|
    ensures forall i :: 0 <= i < |allCmds| ==> r.0[i] == "extern " + r.1.varDefs[i]
    ensures forall i :: 0 <= i < |allCmds| && "egl" <= allCmds[i] ==>
              r.1.varDefs[i] == TypeName(allCmds[i]) + " " + ("EGL_" + allCmds[i][3..]) + ";"
  {
    HeaderMatchesSource(allCmds, "egl", "", Some("EGL_"));
    EglVariables(allCmds);
    (WriteHeader(allCmds, "egl", "", Some("EGL_")), WriteSource(allCmds, "egl", "", Some("EGL_")))
  }

  /** Proof helper: for libEGL a command `egl<Rest>` is held in `EGL_<Rest>`. */
  lemma EglVariables(allCmds: seq<string>)
    ensures forall i :: 0 <= i < |allCmds| && "egl" <= allCmds[i] ==>
              VariableName("egl", "", "EGL_", allCmds[i]) == "EGL_" + allCmds[i][3..]
  {
  }

  /** For libEGL, `eglFoo` is held in `EGL_Foo` of type `PFNEGLFOOPROC`. */
  lemma EglLoaderNames(allCmds: seq<string>, i: nat)
    requires i < |allCmds| && "egl" <= allCmds[i]
    ensures var (header, source) := GenLibEglLoader(allCmds);
      && header[i] == "extern PFN" + Upper(allCmds[i]) + "PROC EGL_" + allCmds[i][3..] + ";"
      && source.setters[i] == "    EGL_" + allCmds[i][3..] + " = reinterpret_cast<PFN" + Upper(allCmds[i])
                              + "PROC>(loadProc(\"EGL_" + allCmds[i][3..] + "\"));"
  {
    var rest := allCmds[i][3..];
    var u := Upper(allCmds[i]);
    assert Pre("EGL_", "egl", allCmds[i]) == "EGL_" + rest;
    EglExternShape(u, rest);
    EglSetterShape(u, rest);
  }

  /** Proof helper: regrouping the concatenation of a libEGL `extern` line. */
  lemma EglExternShape(u: string, rest: string)
    ensures "extern PFN" + u + "PROC " + "" + ("EGL_" + rest) + ";" == "extern PFN" + u + "PROC EGL_" + rest + ";"
  {
  }

  /** Proof helper: regrouping the concatenation of a libEGL setter line. */
  lemma EglSetterShape(u: string, rest: string)
    ensures "    " + "" + ("EGL_" + rest) + " = reinterpret_cast<PFN" + u + "PROC>(loadProc(\"" + ("EGL_" + rest) + "\"));"
         == "    EGL_" + rest + " = reinterpret_cast<PFN" + u + "PROC>(loadProc(\"EGL_" + rest + "\"));"
  {
  }
}
