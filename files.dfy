/** The project files (src/utils/file.js): the non-empty-directory gate,
    the generated `.env` and `scripts/config/index.json`, the removal of
    the template variants not chosen, and the six project tasks. */
module Files {
  import opened Wrappers
  import opened Strings
  import opened Json
  import opened Options
  import opened Tasks
  import opened FileSystem

  // ---------------------------------------------------------------------
  // `checkAppDir`
  // ---------------------------------------------------------------------

  /** How `checkAppDir(targetDir)` ends: it returns (no value), it exits
      the process, or `fs.readdirSync` throws. */
  datatype Gate = Pass | Exits(exit: Exit) | Throws(error: string)

  function NotEmptyNotice(targetDir: string): string {
    "ALREADYEXISTS '" + targetDir + "' already exists and is not empty."
  }

  /** `checkAppDir(targetDir)`: a missing directory or an empty one passes;
      a non-empty directory exits with code 1; a regular file makes the
      directory listing throw. */
  function CheckAppDir(fs: Fs, targetDir: string): (gate: Gate)
    reads fs
    ensures gate.Pass? <==> !fs.Exists(targetDir) || (!fs.Snapshot().IsFile(targetDir) && !fs.Snapshot().HasChildren(targetDir))
    ensures gate.Exits? <==> fs.Exists(targetDir) && !fs.Snapshot().IsFile(targetDir) && fs.Snapshot().HasChildren(targetDir)
    ensures gate.Throws? <==> fs.Snapshot().IsFile(targetDir)
    ensures gate.Exits? ==> gate.exit == Exit(1, NotEmptyNotice(targetDir))
    ensures gate.Throws? ==> gate.error == NotADirectory(targetDir)
  {
    if !fs.Exists(targetDir) then Pass
    else match fs.ReadDirNonEmpty(targetDir)
      case Err(e) => Throws(e)
      case Ok(nonEmpty) => if nonEmpty then Exits(Exit(1, NotEmptyNotice(targetDir))) else Pass
  }

  // ---------------------------------------------------------------------
  // `writeDotEnv`
  // ---------------------------------------------------------------------

  function EnvPath(appDir: string): string {
    PathJoin(PathJoin(appDir, "api"), ".env")
  }

  /** The fixed comment lines that open the generated `.env`. */
  const EnvHeader: seq<string> := [
    "# Use this file to set environment " + "variables with credentials and " + "configuration options",
    "# This file is provided as an example " + "and should be replaced with your own values",
    "# You probably don't want to check " + "this into version control!",
    "" ]

  /** The fixed lines after the credentials; the text ends in a blank line. */
  const EnvFooter: seq<string> := [
    "",
    "# Uncomment this line to specify a " + "specific Neo4j database (v4.x+ only)",
    "#NEO4J_DATABASE=neo4j",
    "",
    "GRAPHQL_SERVER_HOST=0.0.0.0",
    "GRAPHQL_SERVER_PORT=4001",
    "GRAPHQL_SERVER_PATH=/graphql",
    "",
    "" ]

  /** The lines of the generated `.env`: the fixed header, the URI, user
      and password lines in that order, the fixed footer. The encryption
      flag is not written. */
  function DotEnvLines(creds: Credentials): (r: seq<string>)
    ensures |r| == |EnvHeader| + 3 + |EnvFooter|
    ensures r[..|EnvHeader|] == EnvHeader && r[|EnvHeader| + 3..] == EnvFooter
    ensures r[4] == "NEO4J_URI=" + creds.uri && r[5] == "NEO4J_USER=" + creds.user
    ensures r[6] == "NEO4J_PASSWORD=" + creds.password
  {
    EnvHeader + ["NEO4J_URI=" + creds.uri, "NEO4J_USER=" + creds.user, "NEO4J_PASSWORD=" + creds.password] + EnvFooter
  }

  /** The text `writeDotEnv` writes. */
  function DotEnv(creds: Credentials): string {
    Join(DotEnvLines(creds), "\n")
  }

  /** The value of the first line `key=value` among `lines`. */
  function LookupLines(lines: seq<string>, key: string): Option<string> {
    if lines == [] then None
    else if StartsWith(lines[0], key + "=") then Some(lines[0][|key| + 1..])
    else LookupLines(lines[1..], key)
  }

  /** Reading a variable back from `.env` text. */
  function EnvLookup(text: string, key: string): Option<string> {
    LookupLines(Split(text, '\n'), key)
  }

  predicate OneLine(s: string) {
    '\n' !in s
  }

  lemma OneLineConcat(a: string, b: string)
    requires OneLine(a) && OneLine(b)
    ensures OneLine(a + b)
  {
    assert forall i :: 0 <= i < |a + b| ==> (a + b)[i] == if i < |a| then a[i] else b[i - |a|];
  }

  // The long literals of `EnvHeader` and `EnvFooter` are written as
  // concatenated pieces so that the solver never has to unfold one long
  // string literal in the lemmas below.

  lemma HeaderLinesAreLines()
    ensures forall i :: 0 <= i < |EnvHeader| ==> OneLine(EnvHeader[i])
  {
    HeaderLine0();
    HeaderLine1();
    HeaderLine2();
  }

  lemma HeaderLine0()
    ensures OneLine(EnvHeader[0])
  {
    var a, b, c := "# Use this file to set environment ", "variables with credentials and ", "configuration options";
    assert OneLine(a) && OneLine(b) && OneLine(c);
    OneLineConcat(a, b);
    OneLineConcat(a + b, c);
  }

  lemma HeaderLine1()
    ensures OneLine(EnvHeader[1])
  {
    var a, b := "# This file is provided as an example ", "and should be replaced with your own values";
    assert OneLine(a) && OneLine(b);
    OneLineConcat(a, b);
  }

  lemma HeaderLine2()
    ensures OneLine(EnvHeader[2])
  {
    var a, b := "# You probably don't want to check ", "this into version control!";
    assert OneLine(a) && OneLine(b);
    OneLineConcat(a, b);
  }

  lemma FooterLinesAreLines()
    ensures forall i :: 0 <= i < |EnvFooter| ==> OneLine(EnvFooter[i])
  {
    FooterLine1();
    FooterLine2();
    FooterServerLines();
  }

  lemma FooterLine2()
    ensures OneLine(EnvFooter[2])
  {
  }

  lemma FooterServerLines()
    ensures OneLine(EnvFooter[4]) && OneLine(EnvFooter[5]) && OneLine(EnvFooter[6])
  {
    assert OneLine(EnvFooter[4]);
    assert OneLine(EnvFooter[5]);
  }

  lemma FooterLine1()
    ensures OneLine(EnvFooter[1])
  {
    var a, b := "# Uncomment this line to specify a ", "specific Neo4j database (v4.x+ only)";
    assert OneLine(a) && OneLine(b);
    OneLineConcat(a, b);
  }

  lemma DotEnvSplits(creds: Credentials)
    requires OneLine(creds.uri) && OneLine(creds.user) && OneLine(creds.password)
    ensures Split(DotEnv(creds), '\n') == DotEnvLines(creds)
  {
    var lines := DotEnvLines(creds);
    HeaderLinesAreLines();
    FooterLinesAreLines();
    assert OneLine("NEO4J_URI=" + creds.uri) && OneLine("NEO4J_USER=" + creds.user) && OneLine("NEO4J_PASSWORD=" + creds.password) by {
      assert OneLine("NEO4J_URI=") && OneLine("NEO4J_USER=") && OneLine("NEO4J_PASSWORD=");
    }
    assert forall i :: 0 <= i < |lines| ==> OneLine(lines[i]) by {
      forall i | 0 <= i < |lines| ensures OneLine(lines[i]) {
        if i < 4 {
          assert lines[i] == EnvHeader[i];
        } else if i >= 7 {
          assert lines[i] == EnvFooter[i - 7];
        }
      }
    }
    SplitJoin(lines, '\n');
  }

  /** Lines that do not assign `key` are passed over. */
  lemma {:induction false} LookupSkips(pre: seq<string>, rest: seq<string>, key: string)
    requires forall i :: 0 <= i < |pre| ==> !StartsWith(pre[i], key + "=")
    ensures LookupLines(pre + rest, key) == LookupLines(rest, key)
  {
    if pre == [] {
      assert pre + rest == rest;
    } else {
      assert (pre + rest)[0] == pre[0];
      assert (pre + rest)[1..] == pre[1..] + rest;
      LookupSkips(pre[1..], rest, key);
    }
  }

  /** No header line assigns a key that starts with `N`. */
  lemma HeaderAssignsNoNeo4jKey(key: string)
    requires |key| > 0 && key[0] == 'N'
    ensures forall i :: 0 <= i < |EnvHeader| ==> !StartsWith(EnvHeader[i], key + "=")
  {
    assert EnvHeader[0][0] == '#' && EnvHeader[1][0] == '#' && EnvHeader[2][0] == '#' && EnvHeader[3] == "";
  }

  /** No footer line assigns a key that starts with `N`: the database
      line is commented out. */
  lemma FooterAssignsNoNeo4jKey(key: string)
    requires |key| > 0 && key[0] == 'N'
    ensures forall i :: 0 <= i < |EnvFooter| ==> !StartsWith(EnvFooter[i], key + "=")
  {
    assert EnvFooter[1][0] == '#' && EnvFooter[2][0] == '#';
    assert EnvFooter[4][0] == 'G' && EnvFooter[5][0] == 'G' && EnvFooter[6][0] == 'G';
  }

  /** The credential lines, found after the fixed header. */
  lemma EnvAfterHeader(creds: Credentials, key: string)
    requires OneLine(creds.uri) && OneLine(creds.user) && OneLine(creds.password)
    requires |key| > 0 && key[0] == 'N'
    ensures EnvLookup(DotEnv(creds), key) == LookupLines(
      ["NEO4J_URI=" + creds.uri, "NEO4J_USER=" + creds.user, "NEO4J_PASSWORD=" + creds.password] + EnvFooter, key)
  {
    EnvLookupLines(creds, key);
    LinesAfterHeader(creds, key);
  }

  lemma EnvLookupLines(creds: Credentials, key: string)
    requires OneLine(creds.uri) && OneLine(creds.user) && OneLine(creds.password)
    ensures EnvLookup(DotEnv(creds), key) == LookupLines(DotEnvLines(creds), key)
  {
    DotEnvSplits(creds);
  }

  lemma LinesAfterHeader(creds: Credentials, key: string)
    requires |key| > 0 && key[0] == 'N'
    ensures LookupLines(DotEnvLines(creds), key) == LookupLines(
      ["NEO4J_URI=" + creds.uri, "NEO4J_USER=" + creds.user, "NEO4J_PASSWORD=" + creds.password] + EnvFooter, key)
  {
    var creds3 := ["NEO4J_URI=" + creds.uri, "NEO4J_USER=" + creds.user, "NEO4J_PASSWORD=" + creds.password];
    HeaderAssignsNoNeo4jKey(key);
    SkipHead(EnvHeader, creds3, EnvFooter, key);
  }

  lemma SkipHead(head: seq<string>, mid: seq<string>, tail: seq<string>, key: string)
    requires forall i :: 0 <= i < |head| ==> !StartsWith(head[i], key + "=")
    ensures LookupLines(head + mid + tail, key) == LookupLines(mid + tail, key)
  {
    assert head + mid + tail == head + (mid + tail);
    LookupSkips(head, mid + tail, key);
  }

  /** Round trip: each credential is read back verbatim from the `.env`
      text, provided it holds no line break; the database line is a
      comment, so it sets nothing. */
  lemma DotEnvRoundTrip(creds: Credentials)
    requires OneLine(creds.uri) && OneLine(creds.user) && OneLine(creds.password)
    ensures EnvLookup(DotEnv(creds), "NEO4J_URI") == Some(creds.uri)
    ensures EnvLookup(DotEnv(creds), "NEO4J_USER") == Some(creds.user)
    ensures EnvLookup(DotEnv(creds), "NEO4J_PASSWORD") == Some(creds.password)
    ensures EnvLookup(DotEnv(creds), "NEO4J_DATABASE") == None
  {
    UriReadBack(creds);
    UserReadBack(creds);
    PasswordReadBack(creds);
    DatabaseUnset(creds);
  }

  lemma UriReadBack(creds: Credentials)
    requires OneLine(creds.uri) && OneLine(creds.user) && OneLine(creds.password)
    ensures EnvLookup(DotEnv(creds), "NEO4J_URI") == Some(creds.uri)
  {
    EnvAfterHeader(creds, "NEO4J_URI");
    var uri := "NEO4J_URI=" + creds.uri;
    assert StartsWith(uri, "NEO4J_URI=");
    assert uri[10..] == creds.uri;
  }

  lemma UserReadBack(creds: Credentials)
    requires OneLine(creds.uri) && OneLine(creds.user) && OneLine(creds.password)
    ensures EnvLookup(DotEnv(creds), "NEO4J_USER") == Some(creds.user)
  {
    EnvAfterHeader(creds, "NEO4J_USER");
    var uri, user, pw := "NEO4J_URI=" + creds.uri, "NEO4J_USER=" + creds.user, "NEO4J_PASSWORD=" + creds.password;
    assert uri[7] == 'R';
    LookupSkips([uri], [user, pw] + EnvFooter, "NEO4J_USER");
    assert [uri, user, pw] + EnvFooter == [uri] + ([user, pw] + EnvFooter);
    assert StartsWith(user, "NEO4J_USER=");
    assert user[11..] == creds.user;
  }

  lemma PasswordReadBack(creds: Credentials)
    requires OneLine(creds.uri) && OneLine(creds.user) && OneLine(creds.password)
    ensures EnvLookup(DotEnv(creds), "NEO4J_PASSWORD") == Some(creds.password)
  {
    EnvAfterHeader(creds, "NEO4J_PASSWORD");
    var uri, user, pw := "NEO4J_URI=" + creds.uri, "NEO4J_USER=" + creds.user, "NEO4J_PASSWORD=" + creds.password;
    assert uri[6] == 'U' && user[6] == 'U';
    LookupSkips([uri, user], [pw] + EnvFooter, "NEO4J_PASSWORD");
    assert [uri, user, pw] + EnvFooter == [uri, user] + ([pw] + EnvFooter);
    assert StartsWith(pw, "NEO4J_PASSWORD=");
    assert pw[15..] == creds.password;
  }

  lemma DatabaseUnset(creds: Credentials)
    requires OneLine(creds.uri) && OneLine(creds.user) && OneLine(creds.password)
    ensures EnvLookup(DotEnv(creds), "NEO4J_DATABASE") == None
  {
    EnvAfterHeader(creds, "NEO4J_DATABASE");
    var creds3 := ["NEO4J_URI=" + creds.uri, "NEO4J_USER=" + creds.user, "NEO4J_PASSWORD=" + creds.password];
    assert creds3[0][6] == 'U' && creds3[1][6] == 'U' && creds3[2][6] == 'P';
    LookupSkips(creds3, EnvFooter, "NEO4J_DATABASE");
    FooterAssignsNoNeo4jKey("NEO4J_DATABASE");
    LookupSkips(EnvFooter, [], "NEO4J_DATABASE");
    assert EnvFooter + [] == EnvFooter;
  }

  /** The fixed part of the `.env`: the commented database line and the
      GraphQL server settings, whatever the credentials; the encryption
      flag never reaches the file. */
  lemma DotEnvFixedPart(a: Credentials, b: Credentials)
    requires OneLine(a.uri) && OneLine(a.user) && OneLine(a.password)
    ensures var lines := Split(DotEnv(a), '\n');
      |lines| == 16 &&
      lines[4..7] == ["NEO4J_URI=" + a.uri, "NEO4J_USER=" + a.user, "NEO4J_PASSWORD=" + a.password] &&
      lines[9] == "#NEO4J_DATABASE=neo4j" &&
      lines[11..14] == ["GRAPHQL_SERVER_HOST=0.0.0.0", "GRAPHQL_SERVER_PORT=4001", "GRAPHQL_SERVER_PATH=/graphql"]
    ensures (a.uri, a.user, a.password) == (b.uri, b.user, b.password) ==> DotEnv(a) == DotEnv(b)
  {
    DotEnvSplits(a);
    var lines := DotEnvLines(a);
    assert |lines| == 16;
    assert lines[4..7] == ["NEO4J_URI=" + a.uri, "NEO4J_USER=" + a.user, "NEO4J_PASSWORD=" + a.password];
    assert lines[9] == EnvFooter[2];
    assert lines[11..14] == EnvFooter[4..7];
    if (a.uri, a.user, a.password) == (b.uri, b.user, b.password) {
      assert DotEnvLines(a) == DotEnvLines(b);
    }
  }

  // ---------------------------------------------------------------------
  // `writeConfigJson`
  // ---------------------------------------------------------------------

  function ConfigPath(appDir: string): string {
    PathJoin(PathJoin(appDir, "scripts"), "config")
  }

  function ConfigFile(appDir: string): string {
    PathJoin(ConfigPath(appDir), "index.json")
  }

  /** The text of `scripts/config/index.json`, that is
      `JSON.stringify({ templateFileName, templateName })`: a JSON object,
      which is empty exactly when neither value is defined. */
  function ConfigJson(templateName: Option<string>, templateFileName: Option<string>): (r: string)
    ensures |r| >= 2 && r[0] == '{' && r[|r| - 1] == '}'
    ensures r == "{}" <==> templateName.None? && templateFileName.None?
  {
    var props := [Property("templateFileName", templateFileName), Property("templateName", templateName)];
    assert props[1..][1..] == [];
    assert Defined(props[1..]) == [] <==> templateName.None?;
    Stringify(props)
  }

  /** The configuration file holds exactly the two keys, in that order,
      each only when its value is defined. */
  lemma ConfigJsonKeys(templateName: Option<string>, templateFileName: Option<string>)
    ensures DecodeObject(ConfigJson(templateName, templateFileName)) == Some(
      (if templateFileName.Some? then [("templateFileName", templateFileName.value)] else []) +
      (if templateName.Some? then [("templateName", templateName.value)] else []))
  {
    var props := [Property("templateFileName", templateFileName), Property("templateName", templateName)];
    StringifyDecodes(props);
    var second := if templateName.Some? then [("templateName", templateName.value)] else [];
    assert props[1..][1..] == [];
    assert Defined(props[1..]) == second;
    if templateFileName.Some? {
      assert Defined(props) == [("templateFileName", templateFileName.value)] + second;
    } else {
      assert Defined(props) == second;
      assert [] + second == second;
    }
  }

  /** With both values undefined, as the main entry point passes them, the
      file is the empty object. */
  lemma ConfigJsonUndefined()
    ensures ConfigJson(None, None) == "{}"
  {
    var props := [Property("templateFileName", None), Property("templateName", None)];
    assert props[1..][1..] == [];
    assert Defined(props) == [];
  }

  /** The disk after `writeConfigJson`: the directory is created only if
      absent, then `index.json` is (over)written. */
  function ConfigWritten(d: Disk, appDir: string, templateName: Option<string>, templateFileName: Option<string>): Disk {
    var withDir := if d.Exists(ConfigPath(appDir)) then d else d.MakeDir(ConfigPath(appDir));
    withDir.WriteFile(ConfigFile(appDir), ConfigJson(templateName, templateFileName))
  }

  method WriteConfigJson(fs: Fs, appDir: string, templateName: Option<string>, templateFileName: Option<string>)
    modifies fs
    ensures fs.Snapshot() == ConfigWritten(old(fs.Snapshot()), appDir, templateName, templateFileName)
  {
    var configPath := ConfigPath(appDir);
    if !fs.Exists(configPath) {
      fs.MakeDir(configPath);
    }
    fs.WriteFile(PathJoin(configPath, "index.json"), ConfigJson(templateName, templateFileName));
  }

  method WriteDotEnv(fs: Fs, appDir: string, creds: Credentials)
    modifies fs
    ensures fs.Snapshot() == old(fs.Snapshot()).WriteFile(EnvPath(appDir), DotEnv(creds))
  {
    var dotenvPath := PathJoin(appDir, "api");
    fs.WriteFile(PathJoin(dotenvPath, ".env"), DotEnv(creds));
  }

  // ---------------------------------------------------------------------
  // `removeUnusedTemplates`
  // ---------------------------------------------------------------------

  /** The paths handed to `rimraf`, one per entry of `rmTemplates`. */
  function RemovalTargets(appDir: string, rmTemplates: seq<string>): (r: seq<string>)
    ensures |r| == |rmTemplates|
    ensures forall i :: 0 <= i < |r| ==> r[i] == PathJoin(appDir, rmTemplates[i])
  {
    if rmTemplates == [] then []
    else [PathJoin(appDir, rmTemplates[0])] + RemovalTargets(appDir, rmTemplates[1..])
  }

  method RemoveUnusedTemplates(fs: Fs, appDir: string, rmTemplates: seq<string>)
    modifies fs
    ensures fs.Snapshot() == old(fs.Snapshot()).RemoveTrees(RemovalTargets(appDir, rmTemplates))
  {
    ghost var targets := RemovalTargets(appDir, rmTemplates);
    var i := 0;
    while i < |rmTemplates|
      invariant 0 <= i <= |rmTemplates|
      invariant fs.Snapshot() == old(fs.Snapshot()).RemoveTrees(targets[..i])
    {
      fs.RemoveTree(PathJoin(appDir, rmTemplates[i]));
      assert targets[..i + 1][..i] == targets[..i];
      i := i + 1;
    }
    assert targets[..i] == targets;
  }

  /** Removing the unused templates deletes what lies at or below
      `<appDir>/<choice>` for some entry of `rmTemplates`, and nothing else. */
  lemma RemovalTouchesOnlyChoices(d: Disk, appDir: string, rmTemplates: seq<string>)
    ensures forall q :: q in d.RemoveTrees(RemovalTargets(appDir, rmTemplates)).entries <==>
      q in d.entries && forall c :: c in rmTemplates ==> !AtOrUnder(q, PathJoin(appDir, c))
  {
    var targets := RemovalTargets(appDir, rmTemplates);
    RemoveTreesExactly(d, targets);
    assert forall t :: t in targets <==> exists c :: c in rmTemplates && t == PathJoin(appDir, c) by {
      forall t | t in targets ensures exists c :: c in rmTemplates && t == PathJoin(appDir, c) {
        var i :| 0 <= i < |targets| && targets[i] == t;
        assert rmTemplates[i] in rmTemplates;
      }
      forall c | c in rmTemplates ensures PathJoin(appDir, c) in targets {
        var i :| 0 <= i < |rmTemplates| && rmTemplates[i] == c;
        assert targets[i] == PathJoin(appDir, c);
      }
    }
  }

  // ---------------------------------------------------------------------
  // `createProjectTasks`
  // ---------------------------------------------------------------------

  function DirectoryTitle(existed: bool, appDir: string): string {
    (if existed then "Using" else "Creating") + " directory '" + appDir + "'"
  }

  const RemovalHeading: string := "Removing unused templates:"
  const RemovalBullet: string := "    \U{2714} "

  /** The removal task's title: the heading on its own line, then a
      bullet per template; an empty list still leaves one empty bullet. */
  function RemovalTitle(rmTemplates: seq<string>): (r: string)
    ensures |r| > |RemovalHeading| && r[..|RemovalHeading| + 1] == RemovalHeading + "\n"
    ensures rmTemplates == [] ==> r == RemovalHeading + "\n" + RemovalBullet
  {
    RemovalHeading + "\n" + RemovalBullet + Join(rmTemplates, "\n" + RemovalBullet)
  }

  /** The removal title: a heading line, then one line per template to
      remove, in order, each marked with a check mark. */
  lemma RemovalTitleLines(rmTemplates: seq<string>)
    requires |rmTemplates| >= 1
    requires forall i :: 0 <= i < |rmTemplates| ==> OneLine(rmTemplates[i])
    ensures Split(RemovalTitle(rmTemplates), '\n') == [RemovalHeading] + PrefixEach(RemovalBullet, rmTemplates)
  {
    var all := [RemovalHeading] + PrefixEach(RemovalBullet, rmTemplates);
    RemovalTitleJoins(rmTemplates);
    RemovalLinesAreLines(rmTemplates);
    SplitJoin(all, '\n');
  }

  lemma RemovalTitleJoins(rmTemplates: seq<string>)
    requires |rmTemplates| >= 1
    ensures RemovalTitle(rmTemplates) == Join([RemovalHeading] + PrefixEach(RemovalBullet, rmTemplates), "\n")
  {
    var body := PrefixEach(RemovalBullet, rmTemplates);
    JoinPrefixed(RemovalBullet, rmTemplates, "\n");
    JoinCons(RemovalHeading, body, "\n");
  }

  lemma RemovalLinesAreLines(rmTemplates: seq<string>)
    requires forall i :: 0 <= i < |rmTemplates| ==> OneLine(rmTemplates[i])
    ensures forall i :: 0 <= i < 1 + |rmTemplates| ==>
      OneLine(([RemovalHeading] + PrefixEach(RemovalBullet, rmTemplates))[i])
  {
    var all := [RemovalHeading] + PrefixEach(RemovalBullet, rmTemplates);
    assert OneLine(RemovalBullet) && OneLine(RemovalHeading);
    forall i | 0 <= i < |all| ensures OneLine(all[i]) {
      if i > 0 {
        assert all[i] == RemovalBullet + rmTemplates[i - 1];
        OneLineConcat(RemovalBullet, rmTemplates[i - 1]);
      }
    }
  }

  const DownloadTitle: string := "Downloading latest release"
  const ExtractTitle: string := "Extracting latest release"
  const EnvTitle: string := "Creating Local env file with configuration options..."
  const ConfigTitle: string := "Creating scripts configuration..."

  /** `createProjectTasks(...)`: the six project tasks, in order. Whether
      the target directory exists is read when the list is built. */
  function CreateProjectTasks(
    fs: Fs, appDir: string, rmTemplates: seq<string>,
    templateName: Option<string>, templateFileName: Option<string>,
    creds: Credentials, tmpPath: string): (steps: seq<Step>)
    reads fs
    ensures |steps| == 6
    ensures forall i :: 0 <= i < |steps| ==> Runs(steps[i])
    ensures fs.Exists(appDir) ==> StartsWith(steps[0].title, "Using")
    ensures !fs.Exists(appDir) ==> StartsWith(steps[0].title, "Creating") && !StartsWith(steps[0].title, "Using")
    ensures steps[0].action == MakeDirectory(appDir)
    ensures steps[1].action == DownloadRelease(tmpPath) && steps[2].action == ExtractRelease(tmpPath, appDir)
    ensures steps[3].action == WriteEnvFile(appDir, creds)
    ensures steps[4].action == WriteScriptsConfig(appDir, templateName, templateFileName)
    ensures steps[5].action == RemoveTemplates(appDir, rmTemplates)
    ensures steps[0].title == DirectoryTitle(fs.Exists(appDir), appDir)
    ensures steps[1].title == DownloadTitle && steps[2].title == ExtractTitle
    ensures steps[3].title == EnvTitle && steps[4].title == ConfigTitle
    ensures steps[5].title == RemovalTitle(rmTemplates)
  {
    var title := DirectoryTitle(fs.Exists(appDir), appDir);
    assert title == (if fs.Exists(appDir) then "Using" else "Creating") + (" directory '" + appDir + "'");
    assert title[0] == (if fs.Exists(appDir) then 'U' else 'C');
    [ Plain(title, MakeDirectory(appDir)),
      Plain(DownloadTitle, DownloadRelease(tmpPath)),
      Plain(ExtractTitle, ExtractRelease(tmpPath, appDir)),
      Plain(EnvTitle, WriteEnvFile(appDir, creds)),
      Plain(ConfigTitle, WriteScriptsConfig(appDir, templateName, templateFileName)),
      Plain(RemovalTitle(rmTemplates), RemoveTemplates(appDir, rmTemplates)) ]
  }
}
