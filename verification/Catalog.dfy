/**
 The built-in actions that take parameters (internal/actions/catalog.go:129-390):
 their templates and patterns, as facts for the rendering theorems. All other
 built-ins have no parameters.
 */
module Catalog {
  import opened Base
  import opened Substitution
  import opened Render
  import opened RenderOrder
  import opened RenderMeaning
  import opened ShellWords
  import opened Engine
  import Audit

  /** A template in pieces, so that no piece is long. */
  datatype Template = Template(id: Text, pieces: seq<Text>, params: seq<Param>)
  {
    function Command(): Text { Glue(pieces) }
  }

  function Glue(pieces: seq<Text>): Text {
    if pieces == [] then [] else pieces[0] + Glue(pieces[1..])
  }

  const UNIT := [Param("unit", Some(UnitName))]
  const PROGRAM := [Param("prog", Some(ObjectName))]
  const CONTAINER := [Param("id", Some(ObjectName))]
  const PROCESS := [Param("pid", Some(Pid))]
  const PATH := [Param("path", Some(AbsPath))]
  const ENDPOINT := [Param("host", Some(HostName)), Param("port", Some(SmallInt))]
  const URL := [Param("url", Some(HttpUrl))]

  const SYSTEMCTL: Text := "systemctl "
  const JOURNAL: Text := "journalctl -u {{unit}} -n 200 "
  const SUPERVISOR: Text := "supervisorctl "
  const DOCKER: Text := "docker "
  const KILL: Text := "kill "
  const LARGEST: Text := "du -xk -d 2 {{path}}"
  const ON_UNIT: Text := " {{unit}}"
  const ON_PROGRAM: Text := " {{prog}}"
  const ON_CONTAINER: Text := " {{id}}"
  const ON_PROCESS: Text := " {{pid}}"

  function Services(): seq<Template> {
    [Template("services.status", [SYSTEMCTL, "status", ON_UNIT, " --no-pager -l"], UNIT),
     Template("services.journal", [JOURNAL, "--no-pager", " -o short-iso"], UNIT),
     Template("services.journal_follow", [JOURNAL, "-f", " -o short-iso"], UNIT),
     Template("services.start", [SYSTEMCTL, "start", ON_UNIT], UNIT),
     Template("services.stop", [SYSTEMCTL, "stop", ON_UNIT], UNIT),
     Template("services.restart", [SYSTEMCTL, "restart", ON_UNIT], UNIT),
     Template("services.enable", [SYSTEMCTL, "enable", ON_UNIT], UNIT),
     Template("services.disable", [SYSTEMCTL, "disable", ON_UNIT], UNIT)]
  }

  function Programs(): seq<Template> {
    [Template("programs.start", [SUPERVISOR, "start", ON_PROGRAM], PROGRAM),
     Template("programs.stop", [SUPERVISOR, "stop", ON_PROGRAM], PROGRAM),
     Template("programs.restart", [SUPERVISOR, "restart", ON_PROGRAM], PROGRAM),
     Template("programs.tail", [SUPERVISOR, "tail -f", ON_PROGRAM], PROGRAM)]
  }

  function Containers(): seq<Template> {
    [Template("containers.start", [DOCKER, "start", ON_CONTAINER], CONTAINER),
     Template("containers.stop", [DOCKER, "stop", ON_CONTAINER], CONTAINER),
     Template("containers.restart", [DOCKER, "restart", ON_CONTAINER], CONTAINER),
     Template("containers.logs", [DOCKER, "logs --tail 200 -f", ON_CONTAINER], CONTAINER)]
  }

  const TLS_CONNECT: Text := "echo | openssl s_client"
  const TLS_NAME: Text := " -connect {{host}}:{{port}}"
  const TLS_PIPE: Text := " -servername {{host}}"
  const TLS_PRINT: Text := " 2>/dev/null | openssl x509"
  const TLS_DATES: Text := " -noout -subject"
  const TLS_MORE: Text := " -issuer -startdate -enddate"

  function Others(): seq<Template> {
    [Template("processes.terminate", [KILL, "-TERM", ON_PROCESS], PROCESS),
     Template("processes.kill", [KILL, "-KILL", ON_PROCESS], PROCESS),
     Template("disk.largest", [LARGEST, " | sort -rn", " | head -30"], PATH),
     Template("web.tls_cert", [TLS_CONNECT, TLS_NAME, TLS_PIPE, TLS_PRINT, TLS_DATES, TLS_MORE], ENDPOINT)]
  }

  /** The one template that quotes a stretch of its own: the format of the URL check. */
  const REACH_START: Text := "curl -sS -o /dev/null --max-time 10 -w "
  const REACH_FORMAT: Text := FORMAT_HEAD + Braced(FORMAT_FIELDS)
  const FORMAT_HEAD: Text := "status=%"
  const FORMAT_FIELDS: seq<Text> := [
    "http_code}\\ntime=%", "time_total}s\\nsize=%", "size_download}\\nremote=%", "remote_ip}:%", "remote_port}\\n"]
  const REACH_END: Text := " {{url}}"

  function Reach(): Template {
    Template("network.reach", [REACH_START, QUOTE, REACH_FORMAT, QUOTE, REACH_END], URL)
  }

  function Braced(parts: seq<Text>): Text {
    if parts == [] then [] else "{" + parts[0] + Braced(parts[1..])
  }

  /** All templates that quote nothing themselves. */
  predicate Unquoting(t: Template) {
    t in Services() || t in Programs() || t in Containers() || t in Others()
  }

  predicate Builtin(t: Template) {
    Unquoting(t) || t == Reach()
  }

  // ---- Every template is well placed ----------------------------------------

  predicate PlainText(s: Text) {
    forall i :: 0 <= i < |s| ==> !LeavesPlain(s[i])
  }

  predicate AllPlain(pieces: seq<Text>) {
    forall p <- pieces :: PlainText(p)
  }

  /** What the rendering theorems ask of an action. */
  predicate Fit(t: Template) {
    && PlainParams(t.params) && WellPlaced(t.Command(), t.params)
    && forall p <- t.params :: p.pattern.Some?
  }

  lemma {:induction false} GlueIsPlain(pieces: seq<Text>)
    requires AllPlain(pieces)
    ensures PlainText(Glue(pieces))
  {
    if pieces != [] {
      assert pieces[0] in pieces && forall p <- pieces[1..] :: p in pieces;
      GlueIsPlain(pieces[1..]);
    }
  }

  lemma PlainIsFit(t: Template)
    requires AllPlain(t.pieces) && PlainParams(t.params) && forall p <- t.params :: p.pattern.Some?
    ensures Fit(t)
  {
    GlueIsPlain(t.pieces);
    UnquotedTemplatesAreWellPlaced(t.Command(), t.params);
  }

  /** The pieces: none has a character that leaves unquoted text. */
  lemma CommandsArePlain()
    ensures PlainText(SYSTEMCTL) && PlainText(SUPERVISOR) && PlainText(DOCKER) && PlainText(KILL)
    ensures PlainText(ON_UNIT) && PlainText(ON_PROGRAM) && PlainText(ON_CONTAINER) && PlainText(ON_PROCESS)
    ensures PlainText("start") && PlainText("stop") && PlainText("restart")
  {
  }

  lemma OptionsArePlain()
    ensures PlainText(JOURNAL) && PlainText("--no-pager") && PlainText(" -o short-iso") && PlainText("-f")
    ensures PlainText("status") && PlainText("enable") && PlainText("disable") && PlainText(" --no-pager -l")
    ensures PlainText("tail -f") && PlainText("logs --tail 200 -f") && PlainText("-TERM") && PlainText("-KILL")
  {
  }

  lemma PipesArePlain()
    ensures PlainText(LARGEST) && PlainText(" | sort -rn") && PlainText(" | head -30")
    ensures PlainText(TLS_CONNECT) && PlainText(TLS_NAME) && PlainText(TLS_PIPE)
  {
  }

  lemma EndingsArePlain()
    ensures PlainText(TLS_PRINT) && PlainText(TLS_DATES) && PlainText(TLS_MORE)
  {
  }

  lemma ReachIsPlain()
    ensures PlainText(REACH_START) && PlainText(REACH_END)
  {
  }

  lemma ServicesArePlain(t: Template)
    requires t in Services()
    ensures AllPlain(t.pieces) && t.params == UNIT
  {
    CommandsArePlain();
    OptionsArePlain();
  }

  lemma ProgramsArePlain(t: Template)
    requires t in Programs() || t in Containers()
    ensures AllPlain(t.pieces) && t.params in [PROGRAM, CONTAINER]
  {
    CommandsArePlain();
    OptionsArePlain();
  }

  lemma OthersArePlain(t: Template)
    requires t in Others()
    ensures AllPlain(t.pieces) && t.params in [PROCESS, PATH, ENDPOINT]
  {
    CommandsArePlain();
    OptionsArePlain();
    PipesArePlain();
    EndingsArePlain();
  }

  lemma UnquotingIsPlain(t: Template)
    requires Unquoting(t)
    ensures AllPlain(t.pieces) && t.params in [UNIT, PROGRAM, CONTAINER, PROCESS, PATH, ENDPOINT]
  {
    if t in Services() {
      ServicesArePlain(t);
    } else if t in Others() {
      OthersArePlain(t);
    } else {
      ProgramsArePlain(t);
    }
  }

  lemma NamesArePlain()
    ensures PlainName("unit") && PlainName("prog") && PlainName("id") && PlainName("pid")
    ensures PlainName("path") && PlainName("host") && PlainName("port") && PlainName("url")
  {
  }

  lemma ParamsArePlain(params: seq<Param>)
    requires params in [UNIT, PROGRAM, CONTAINER, PROCESS, PATH, ENDPOINT, URL]
    ensures PlainParams(params) && forall p <- params :: p.pattern.Some?
  {
    NamesArePlain();
    forall p | p in params ensures PlainName(p.name) && p.pattern.Some? {
    }
  }

  // ---- The URL check --------------------------------------------------------

  /** Pieces that open a single brace each. */
  predicate SingleBraces(parts: seq<Text>) {
    forall p <- parts :: p != [] && '{' !in p
  }

  /** No placeholder occurs where braces are not doubled. */
  lemma {:induction false} BracedHasNoHole(parts: seq<Text>, name: Text)
    requires SingleBraces(parts)
    ensures !OccursIn(Placeholder(name), Braced(parts))
  {
    var ph, s := Placeholder(name), Braced(parts);
    if parts != [] {
      var p, rest := parts[0], Braced(parts[1..]);
      assert p in parts && forall q <- parts[1..] :: q in parts;
      BracedHasNoHole(parts[1..], name);
      assert s == "{" + p + rest && s[|p| + 1..] == rest;
      forall i | 0 <= i < |p| + 1 ensures !(ph <= s[i..]) {
        if i > 0 {
          assert s[i] == p[i - 1] && p[i - 1] in p;
        } else {
          assert s[1] == p[0] && p[0] in p;
        }
      }
      OccursAfter(s, ph, |p| + 1);
    }
  }

  lemma PrefixHasNoHole(head: Text, parts: seq<Text>, name: Text)
    requires SingleBraces(parts) && '{' !in head
    ensures !Contains(head + Braced(parts), Placeholder(name))
  {
    var ph, s := Placeholder(name), head + Braced(parts);
    BracedHasNoHole(parts, name);
    forall i | 0 <= i < |head| ensures !(ph <= s[i..]) {
      assert s[i] == head[i] && head[i] in head;
    }
    assert s[|head|..] == Braced(parts);
    OccursAfter(s, ph, |head|);
  }

  lemma {:induction false} BracedHasNoQuote(parts: seq<Text>)
    requires forall p <- parts :: '\'' !in p
    ensures '\'' !in Braced(parts)
  {
    if parts != [] {
      assert parts[0] in parts && forall q <- parts[1..] :: q in parts;
      BracedHasNoQuote(parts[1..]);
    }
  }

  lemma FormatPieces(p: Text)
    requires p in FORMAT_FIELDS
    ensures p != [] && '{' !in p && '\'' !in p
  {
  }

  lemma GlueFive(a: Text, b: Text, c: Text, d: Text, e: Text)
    ensures Glue([a, b, c, d, e]) == a + (b + (c + (d + e)))
  {
    assert [a, b, c, d, e][1..] == [b, c, d, e] && [b, c, d, e][1..] == [c, d, e];
    assert [c, d, e][1..] == [d, e] && [d, e][1..] == [e] && [e][1..] == [];
    assert Glue([e]) == e + [] == e;
    assert Glue([d, e]) == d + e;
    assert Glue([c, d, e]) == c + (d + e);
  }

  lemma QuotedFormatIsFit(t: Template, start: Text, head: Text, fields: seq<Text>, end: Text, p: Param)
    requires t.pieces == [start, QUOTE, head + Braced(fields), QUOTE, end] && t.params == [p]
    requires PlainParams(t.params) && p.pattern.Some? && PlainText(start) && PlainText(end)
    requires '{' !in head && '\'' !in head && SingleBraces(fields) && forall f <- fields :: '\'' !in f
    ensures Fit(t)
  {
    BracedHasNoQuote(fields);
    PrefixHasNoHole(head, fields, p.name);
    GlueFive(start, QUOTE, head + Braced(fields), QUOTE, end);
    QuotedStretchIsWellPlaced(start, head + Braced(fields), end, t.params);
  }

  lemma FormatIsBraced()
    ensures SingleBraces(FORMAT_FIELDS) && forall f <- FORMAT_FIELDS :: '\'' !in f
  {
    forall f | f in FORMAT_FIELDS ensures f != [] && '{' !in f && '\'' !in f {
      FormatPieces(f);
    }
  }

  lemma ReachIsFit()
    ensures Fit(Reach())
  {
    ParamsArePlain(URL);
    ReachIsPlain();
    FormatIsBraced();
    HeadIsPlain();
    QuotedFormatIsFit(Reach(), REACH_START, FORMAT_HEAD, FORMAT_FIELDS, REACH_END, URL[0]);
  }

  lemma HeadIsPlain()
    ensures '{' !in FORMAT_HEAD && '\'' !in FORMAT_HEAD
  {
  }

  // ---- All of them ----------------------------------------------------------

  /** Every built-in template has its placeholders in unquoted text, and a pattern for every parameter. */
  lemma BuiltinsAreFit(t: Template)
    requires Builtin(t)
    ensures Fit(t)
  {
    if Unquoting(t) {
      UnquotingIsPlain(t);
      ParamsArePlain(t.params);
      PlainIsFit(t);
    } else {
      ReachIsFit();
    }
  }

  predicate Declares(t: Template, a: Action) {
    a.id == t.id && a.command == t.Command() && a.params == t.params
  }

  /** An action as the catalog declares it: one of the templates, or a command without parameters. */
  ghost predicate IsBuiltin(a: Action) {
    a.script == "" && (a.params == [] || exists t: Template :: Builtin(t) && Declares(t, a))
  }

  /**
   For the built-in actions rendering needs no hypothesis: whenever one is
   prepared, what is fed to the shell is one line whose tokens are those of its
   template, each placeholder being exactly the requested value.
   */
  lemma BuiltinsMeanTheirTemplates(site: Site, req: Request)
    requires Prepare(site, req).Ok? && IsBuiltin(Prepare(site, req).value.action)
    ensures var p := Prepare(site, req).value;
            && p.script != [] && p.script[|p.script| - 1] == '\n'
            && MeansTemplate(p.script[..|p.script| - 1], p.action.command, p.action.params, req.params)
  {
    var act := Prepare(site, req).value.action;
    Audit.PreparedIsSound(site, req);
    BuiltinIsRenderable(act, req.params);
    Audit.ExecutedMeansTemplate(site, req);
  }

  lemma BuiltinIsRenderable(act: Action, values: Values)
    requires IsBuiltin(act) && RenderFrom(act.command, act.params, values).Ok?
    ensures PlainParams(act.params) && WellPlaced(act.command, act.params)
    ensures NoLaterPlaceholder(act.params, values)
  {
    if act.params == [] {
      NoParamsIsWellPlaced(act.command);
    } else {
      var t: Template :| Builtin(t) && Declares(t, act);
      BuiltinsAreFit(t);
      FitIsRenderable(t, values);
    }
  }

  lemma FitIsRenderable(t: Template, values: Values)
    requires Fit(t) && RenderFrom(t.Command(), t.params, values).Ok?
    ensures NoLaterPlaceholder(t.params, values)
  {
    AcceptedValuesAreClean(t.Command(), t.params, values);
  }
}
