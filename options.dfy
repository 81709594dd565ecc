/** Options resolution (src/utils/options.js): command-line tokens become an
    options record; then either the `--yes` defaults or the answers of an
    interactive prompter complete it into the configuration of one run. */
module Options {
  import opened Wrappers
  import opened Strings

  /** The template variants the starter ships, in the order offered. */
  const TemplateOpts: seq<string> := ["React", "React-TS", "Angular"]
  const DefaultTemplate: string := "React"
  const DefaultPath: string := "./GRANDStackStarter"
  const DefaultUri: string := "bolt://localhost:7687"
  const DefaultUser: string := "neo4j"
  const DefaultPassword: string := "letmein"

  /** The record `parseArgumentsIntoOptions` returns; `None` is `undefined`. */
  datatype Options = Options(
    skipPrompts: bool,
    gitInit: bool,
    projectPath: Option<string>,
    template: Option<string>,
    runInstall: bool,
    useNpm: bool)

  /** The database connection settings, as the API questions name them. */
  datatype Credentials = Credentials(uri: string, encrypted: bool, user: string, password: string)

  /** The fully resolved configuration handed to `createApp`. */
  datatype Config = Config(
    skipPrompts: bool,
    gitInit: bool,
    projectPath: string,
    template: string,
    runInstall: bool,
    useNpm: bool,
    creds: Credentials,
    rmTemplates: seq<string>)

  /** The process ends with this code after printing this message. */
  datatype Exit = Exit(code: int, message: string)

  /** JavaScript truthiness of a string that may be `undefined`. */
  predicate Truthy(s: Option<string>) {
    s.Some? && s.value != ""
  }

  /** `s || fallback` for a string that may be `undefined`. */
  function OrElse(s: Option<string>, fallback: string): string {
    if Truthy(s) then s.value else fallback
  }

  // ---------------------------------------------------------------------
  // Parsing (`parseArgumentsIntoOptions`)
  // ---------------------------------------------------------------------

  /** `rawArgs.slice(2)`: the interpreter and script paths are dropped. */
  function UserArgs(argv: seq<string>): seq<string> {
    if |argv| >= 2 then argv[2..] else []
  }

  /** How the option parser tells options from positional arguments. */
  predicate IsOptionToken(t: string) {
    |t| > 1 && t[0] == '-'
  }

  /** The token after which everything is an operand. */
  const EndOfOptions: string := "--"
  const GitFlag: string := "--git"
  const YesFlag: string := "--yes"
  const InstallFlag: string := "--install"
  const UseNpmFlag: string := "--use-npm"
  const InitDbFlag: string := "--init-db"
  const GitAlias: string := "-g"
  const YesAlias: string := "-y"
  const InstallAlias: string := "-i"
  const UseNpmAlias: string := "-un"

  /** The option table: each accepted spelling and the flag it sets. Every
      flag is a long option whose own spelling maps to itself. */
  function Canonical(t: string): (r: Option<string>)
    ensures r.Some? ==> r.value in [GitFlag, YesFlag, InstallFlag, UseNpmFlag, InitDbFlag]
    ensures r.Some? && |t| > 2 && t[1] == '-' ==> r.value == t
  {
    if t == GitFlag || t == GitAlias then Some(GitFlag)
    else if t == YesFlag || t == YesAlias then Some(YesFlag)
    else if t == InstallFlag || t == InstallAlias then Some(InstallFlag)
    else if t == UseNpmFlag || t == UseNpmAlias then Some(UseNpmFlag)
    else if t == InitDbFlag then Some(InitDbFlag)
    else None
  }

  /** The name part of a long option: what precedes its first `=` (the
      value after it is ignored for a flag). */
  function LongName(t: string): (r: string)
    ensures |r| <= |t| && r == t[..|r|] && '=' !in r
    ensures |r| < |t| ==> t[|r|] == '='
  {
    if t == [] || t[0] == '=' then [] else [t[0]] + LongName(t[1..])
  }

  /** A bundle of one-letter options, `-abc` read as `-a`, `-b`, `-c`. */
  function Unbundle(letters: string): (r: seq<string>)
    ensures |r| == |letters|
    ensures forall i :: 0 <= i < |r| ==> r[i] == ['-', letters[i]]
  {
    if letters == [] then [] else [['-', letters[0]]] + Unbundle(letters[1..])
  }

  /** The option names one option token stands for: a long option's name,
      a two-character option itself, or the letters of a longer
      single-dash token one by one. No name of more than two characters
      starts with a single dash. */
  function OptionNames(t: string): (r: seq<string>)
    requires IsOptionToken(t)
    ensures |r| >= 1
    ensures t[1] == '-' || |t| == 2 ==> |r| == 1
  {
    if t[1] == '-' then [LongName(t)]
    else if |t| == 2 then [t]
    else Unbundle(t[1..])
  }

  /** Every option name looks like an option, and none of more than two
      characters starts with a single dash. */
  predicate NameShaped(w: string) {
    IsOptionToken(w) && (|w| > 2 ==> w[1] == '-')
  }

  lemma OptionNamesShaped(t: string)
    requires IsOptionToken(t)
    ensures forall w :: w in OptionNames(t) ==> NameShaped(w)
  {
    if t[1] == '-' {
      var name := LongName(t);
      assert name[..2] == t[..2];
    }
  }

  /** The option names the parser looks up, in order: those of each
      option token before the first `--`. */
  function Words(tokens: seq<string>): seq<string> {
    if tokens == [] || tokens[0] == EndOfOptions then []
    else if IsOptionToken(tokens[0]) then OptionNames(tokens[0]) + Words(tokens[1..])
    else Words(tokens[1..])
  }

  lemma {:induction false} WordsShaped(tokens: seq<string>)
    ensures forall w :: w in Words(tokens) ==> NameShaped(w)
  {
    if tokens != [] && tokens[0] != EndOfOptions {
      WordsShaped(tokens[1..]);
      if IsOptionToken(tokens[0]) {
        OptionNamesShaped(tokens[0]);
      }
    }
  }

  /** `args._`: the tokens before the first `--` that are not options, in
      order, then every token after it. */
  function Operands(tokens: seq<string>): (r: seq<string>)
    ensures |r| <= |tokens|
  {
    if tokens == [] then []
    else if tokens[0] == EndOfOptions then tokens[1..]
    else if IsOptionToken(tokens[0]) then Operands(tokens[1..])
    else [tokens[0]] + Operands(tokens[1..])
  }

  /** Every name is in the option table. */
  predicate AllKnown(names: seq<string>) {
    forall w :: w in names ==> Canonical(w).Some?
  }

  /** The flags a list of option names sets. */
  function FlagsOf(names: seq<string>): (r: set<string>)
    ensures forall f :: f in r <==> exists w :: w in names && Canonical(w) == Some(f)
  {
    set w | w in names && Canonical(w).Some? :: Canonical(w).value
  }

  datatype Scanned = Scanned(flags: set<string>, positionals: seq<string>)

  /** The option parser's pass over the tokens: `None` when it meets an
      option name that is not in the table. */
  function Scan(tokens: seq<string>): (r: Option<Scanned>)
    ensures r.Some? <==> AllKnown(Words(tokens))
    ensures r.Some? ==> r.value.flags == FlagsOf(Words(tokens))
    ensures r.Some? ==> r.value.positionals == Operands(tokens)
  {
    if tokens == [] then Some(Scanned({}, []))
    else if tokens[0] == EndOfOptions then Some(Scanned({}, tokens[1..]))
    else
      var rest := Scan(tokens[1..]);
      var t := tokens[0];
      if rest.None? then None
      else if !IsOptionToken(t) then Some(Scanned(rest.value.flags, [t] + rest.value.positionals))
      else
        var names := OptionNames(t);
        assert Words(tokens) == names + Words(tokens[1..]);
        if exists w :: w in names && Canonical(w).None? then None
        else Some(Scanned(FlagsOf(names) + rest.value.flags, rest.value.positionals))
  }

  function Nth(s: seq<string>, i: nat): Option<string> {
    if i < |s| then Some(s[i]) else None
  }

  /** The spellings of each flag the options record reads. */
  lemma CanonicalSpellings(t: string)
    ensures Canonical(t) == Some(YesFlag) <==> t == YesFlag || t == YesAlias
    ensures Canonical(t) == Some(GitFlag) <==> t == GitFlag || t == GitAlias
    ensures Canonical(t) == Some(InstallFlag) <==> t == InstallFlag || t == InstallAlias
    ensures Canonical(t) == Some(UseNpmFlag) <==> t == UseNpmFlag || t == UseNpmAlias
  {
  }

  /** A flag is set exactly when its long form or its alias is among the
      option names; `-un` never is one. */
  lemma FlagsNamed(names: seq<string>)
    requires forall w :: w in names ==> NameShaped(w)
    ensures YesFlag in FlagsOf(names) <==> YesFlag in names || YesAlias in names
    ensures GitFlag in FlagsOf(names) <==> GitFlag in names || GitAlias in names
    ensures InstallFlag in FlagsOf(names) <==> InstallFlag in names || InstallAlias in names
    ensures UseNpmFlag in FlagsOf(names) <==> UseNpmFlag in names
  {
    forall w | w in names
      ensures Canonical(w) == Some(YesFlag) <==> w == YesFlag || w == YesAlias
      ensures Canonical(w) == Some(GitFlag) <==> w == GitFlag || w == GitAlias
      ensures Canonical(w) == Some(InstallFlag) <==> w == InstallFlag || w == InstallAlias
      ensures Canonical(w) == Some(UseNpmFlag) <==> w == UseNpmFlag || w == UseNpmAlias
    {
      CanonicalSpellings(w);
    }
    assert UseNpmAlias !in names by {
      assert |UseNpmAlias| > 2 && UseNpmAlias[1] != '-';
    }
  }

  /** The options record built from what the parser returned. */
  function Interpret(scanned: Option<Scanned>): Result<Options, Exit> {
    if scanned.None? then Err(Exit(0, "unknown option"))
    else
      var flags, ps := scanned.value.flags, scanned.value.positionals;
      Ok(Options(
        skipPrompts := YesFlag in flags,
        gitInit := GitFlag in flags,
        projectPath := Nth(ps, 0),
        template := Nth(ps, 1),
        runInstall := InstallFlag in flags,
        useNpm := UseNpmFlag in flags))
  }

  /** `parseArgumentsIntoOptions(rawArgs)`. The `-un` alias can never be
      looked up: a single-dash token of three characters is read as `-u`,
      `-n`, which are unknown. */
  function ParseArgumentsIntoOptions(argv: seq<string>): (r: Result<Options, Exit>)
    ensures r.Err? <==> exists w :: w in Words(UserArgs(argv)) && Canonical(w).None?
    ensures r.Err? ==> r.error == Exit(0, "unknown option")
    ensures r.Ok? ==> (r.value.skipPrompts <==> YesFlag in Words(UserArgs(argv)) || YesAlias in Words(UserArgs(argv)))
    ensures r.Ok? ==> (r.value.gitInit <==> GitFlag in Words(UserArgs(argv)) || GitAlias in Words(UserArgs(argv)))
    ensures r.Ok? ==> (r.value.runInstall <==> InstallFlag in Words(UserArgs(argv)) || InstallAlias in Words(UserArgs(argv)))
    ensures r.Ok? ==> (r.value.useNpm <==> UseNpmFlag in Words(UserArgs(argv)))
    ensures r.Ok? ==> r.value.projectPath == Nth(Operands(UserArgs(argv)), 0)
    ensures r.Ok? ==> r.value.template == Nth(Operands(UserArgs(argv)), 1)
  {
    var tokens := UserArgs(argv);
    WordsShaped(tokens);
    FlagsNamed(Words(tokens));
    Interpret(Scan(tokens))
  }

  /** The parse depends on the command line only through whether all its
      option names are known, the flags they set, and its operands. */
  lemma ParseByWords(a: seq<string>, b: seq<string>)
    requires AllKnown(Words(UserArgs(a))) <==> AllKnown(Words(UserArgs(b)))
    requires FlagsOf(Words(UserArgs(a))) == FlagsOf(Words(UserArgs(b)))
    requires Operands(UserArgs(a)) == Operands(UserArgs(b))
    ensures ParseArgumentsIntoOptions(a) == ParseArgumentsIntoOptions(b)
  {
    assert Scan(UserArgs(a)) == Scan(UserArgs(b));
  }

  /** The tokens before a `--` contribute their names and operands ahead of
      the rest. */
  lemma {:induction false} WordsAppend(a: seq<string>, b: seq<string>)
    requires EndOfOptions !in a
    ensures Words(a + b) == Words(a) + Words(b)
  {
    if a == [] {
      assert a + b == b;
    } else {
      assert a[0] != EndOfOptions && EndOfOptions !in a[1..];
      WordsAppend(a[1..], b);
      assert (a + b)[0] == a[0] && (a + b)[1..] == a[1..] + b;
    }
  }

  lemma {:induction false} OperandsAppend(a: seq<string>, b: seq<string>)
    requires EndOfOptions !in a
    ensures Operands(a + b) == Operands(a) + Operands(b)
  {
    if a == [] {
      assert a + b == b;
    } else {
      assert a[0] != EndOfOptions && EndOfOptions !in a[1..];
      OperandsAppend(a[1..], b);
      assert (a + b)[0] == a[0] && (a + b)[1..] == a[1..] + b;
    }
  }

  /** One token at the head of the rest: its names, then the rest's. */
  lemma TokenThenRest(t: string, rest: seq<string>)
    requires IsOptionToken(t) && t != EndOfOptions
    ensures Words([t] + rest) == OptionNames(t) + Words(rest)
    ensures Operands([t] + rest) == Operands(rest)
  {
    assert ([t] + rest)[0] == t && ([t] + rest)[1..] == rest;
  }

  /** Unbundled, the letters of a bundle are two-character options that
      name themselves. */
  lemma {:induction false} LettersAreWords(letters: string)
    requires '-' !in letters
    ensures Words(Unbundle(letters)) == Unbundle(letters)
    ensures Operands(Unbundle(letters)) == []
    ensures EndOfOptions !in Unbundle(letters)
  {
    if letters != [] {
      var u := Unbundle(letters);
      assert u[1..] == Unbundle(letters[1..]);
      assert u[0] == ['-', letters[0]] && u[0] != EndOfOptions;
      LettersAreWords(letters[1..]);
    }
  }

  /** Writing a bundle such as `-gy` as separate options `-g -y`, anywhere
      before `--`, parses to the same outcome. */
  lemma UnbundlingEquivalent(argv: seq<string>, i: nat)
    requires 2 <= i < |argv| && EndOfOptions !in argv[2..i]
    requires IsOptionToken(argv[i]) && |argv[i]| > 2 && '-' !in argv[i][1..]
    ensures ParseArgumentsIntoOptions(argv[..i] + Unbundle(argv[i][1..]) + argv[i + 1..]) == ParseArgumentsIntoOptions(argv)
  {
    var pieces := Unbundle(argv[i][1..]);
    Around(argv, 2, i, argv[i]);
    Spliced(argv, 2, i, pieces);
    UnbundleTokens(argv[2..i], argv[i], argv[i + 1..]);
    ParseByWords(argv[..i] + pieces + argv[i + 1..], argv);
  }

  lemma UnbundleTokens(before: seq<string>, t: string, after: seq<string>)
    requires EndOfOptions !in before
    requires IsOptionToken(t) && |t| > 2 && '-' !in t[1..]
    ensures Words(before + (Unbundle(t[1..]) + after)) == Words(before + ([t] + after))
    ensures Operands(before + (Unbundle(t[1..]) + after)) == Operands(before + ([t] + after))
  {
    assert t[1] != '-' && t != EndOfOptions;
    LettersAreWords(t[1..]);
    UnbundleWords(before, t, after);
    UnbundleOperands(before, t, after);
  }

  lemma UnbundleWords(before: seq<string>, t: string, after: seq<string>)
    requires EndOfOptions !in before && IsOptionToken(t) && t != EndOfOptions && |t| > 2 && t[1] != '-'
    requires Words(Unbundle(t[1..])) == Unbundle(t[1..]) && EndOfOptions !in Unbundle(t[1..])
    ensures Words(before + (Unbundle(t[1..]) + after)) == Words(before + ([t] + after))
  {
    var pieces := Unbundle(t[1..]);
    WordsAppend(before, pieces + after);
    WordsAppend(before, [t] + after);
    WordsAppend(pieces, after);
    TokenThenRest(t, after);
  }

  lemma UnbundleOperands(before: seq<string>, t: string, after: seq<string>)
    requires EndOfOptions !in before && IsOptionToken(t) && t != EndOfOptions
    requires Operands(Unbundle(t[1..])) == [] && EndOfOptions !in Unbundle(t[1..])
    ensures Operands(before + (Unbundle(t[1..]) + after)) == Operands(before + ([t] + after))
  {
    var pieces := Unbundle(t[1..]);
    OperandsAppend(pieces, after);
    TokenThenRest(t, after);
    SameOperandsAfter(before, pieces + after, [t] + after);
  }

  /** Tokens with the same operands keep them behind the same prefix. */
  lemma SameOperandsAfter(before: seq<string>, x: seq<string>, y: seq<string>)
    requires EndOfOptions !in before && Operands(x) == Operands(y)
    ensures Operands(before + x) == Operands(before + y)
  {
    OperandsAppend(before, x);
    OperandsAppend(before, y);
  }

  /** A sequence from `lo` on, cut around position `i`, and the same with
      the element there replaced. */
  lemma Around<T>(s: seq<T>, lo: nat, i: nat, x: T)
    requires lo <= i < |s|
    ensures s[lo..] == s[lo..i] + ([s[i]] + s[i + 1..])
    ensures s[i := x][lo..] == s[lo..i] + ([x] + s[i + 1..])
  {
  }

  lemma Spliced<T>(s: seq<T>, lo: nat, i: nat, pieces: seq<T>)
    requires lo <= i < |s|
    ensures (s[..i] + pieces + s[i + 1..])[lo..] == s[lo..i] + (pieces + s[i + 1..])
  {
  }

  /** Swapping one name for another with the same table entry changes
      neither whether all names are known nor the flags they set. */
  lemma SwapName(front: seq<string>, x: string, y: string, back: seq<string>)
    requires Canonical(x).Some? && Canonical(x) == Canonical(y)
    ensures AllKnown(front + [x] + back) <==> AllKnown(front + [y] + back)
    ensures FlagsOf(front + [x] + back) == FlagsOf(front + [y] + back)
  {
    var a, b := front + [x] + back, front + [y] + back;
    assert forall w :: w in a <==> w in front || w == x || w in back;
    assert forall w :: w in b <==> w in front || w == y || w in back;
  }

  /** Writing a one-letter alias (`-g`, `-y`, `-i`) or its long form, at
      a place before any `--`, parses to the same outcome. */
  lemma AliasesEquivalent(argv: seq<string>, i: nat, long: string)
    requires 2 <= i < |argv| && EndOfOptions !in argv[2..i]
    requires IsOptionToken(argv[i]) && OptionNames(argv[i]) == [argv[i]]
    requires IsOptionToken(long) && OptionNames(long) == [long]
    requires Canonical(argv[i]).Some? && Canonical(argv[i]) == Canonical(long)
    ensures ParseArgumentsIntoOptions(argv[i := long]) == ParseArgumentsIntoOptions(argv)
  {
    Around(argv, 2, i, long);
    SwapTokens(argv[2..i], argv[i], long, argv[i + 1..]);
    ParseByWords(argv[i := long], argv);
  }

  lemma SwapTokens(before: seq<string>, t: string, long: string, after: seq<string>)
    requires EndOfOptions !in before
    requires IsOptionToken(t) && OptionNames(t) == [t]
    requires IsOptionToken(long) && OptionNames(long) == [long]
    requires Canonical(t).Some? && Canonical(t) == Canonical(long)
    ensures AllKnown(Words(before + ([t] + after))) <==> AllKnown(Words(before + ([long] + after)))
    ensures FlagsOf(Words(before + ([t] + after))) == FlagsOf(Words(before + ([long] + after)))
    ensures Operands(before + ([t] + after)) == Operands(before + ([long] + after))
  {
    UnknownLetter(EndOfOptions);
    WordsAppend(before, [long] + after);
    WordsAppend(before, [t] + after);
    TokenThenRest(t, after);
    TokenThenRest(long, after);
    SwapName(Words(before), t, long, Words(after));
    SwapOperands(before, t, long, after);
  }

  lemma SwapOperands(before: seq<string>, t: string, long: string, after: seq<string>)
    requires EndOfOptions !in before
    requires IsOptionToken(t) && IsOptionToken(long) && t != EndOfOptions && long != EndOfOptions
    ensures Operands(before + ([t] + after)) == Operands(before + ([long] + after))
  {
    TokenThenRest(t, after);
    TokenThenRest(long, after);
    SameOperandsAfter(before, [t] + after, [long] + after);
  }

  /** As written, the `-un` alias is rejected as an unknown option
      wherever it appears before `--`. */
  lemma UseNpmAliasRejected(argv: seq<string>, i: nat)
    requires 2 <= i < |argv| && EndOfOptions !in argv[2..i] && argv[i] == UseNpmAlias
    ensures ParseArgumentsIntoOptions(argv) == Err(Exit(0, "unknown option"))
  {
    var u := UserArgs(argv);
    assert u == argv[2..i] + ([argv[i]] + argv[i + 1..]);
    WordsAppend(argv[2..i], [argv[i]] + argv[i + 1..]);
    TokenThenRest(UseNpmAlias, argv[i + 1..]);
    var w := OptionNames(UseNpmAlias)[0];
    assert w == ['-', 'u'];
    UnknownLetter(w);
    assert w in Words(u);
  }

  /** A two-character option other than `-g`, `-y` and `-i` is not in
      the table. */
  lemma UnknownLetter(w: string)
    requires |w| == 2 && w[1] != 'g' && w[1] != 'y' && w[1] != 'i'
    ensures Canonical(w).None?
  {
    assert w != GitAlias && w != YesAlias && w != InstallAlias by {
      assert GitAlias[1] == 'g' && YesAlias[1] == 'y' && InstallAlias[1] == 'i';
    }
    assert |GitFlag| != 2 && |YesFlag| != 2 && |InstallFlag| != 2 && |UseNpmFlag| != 2;
    assert |InitDbFlag| != 2 && |UseNpmAlias| != 2;
  }

  // ---------------------------------------------------------------------
  // Prompting (`promptForMissingOptions`)
  // ---------------------------------------------------------------------

  datatype QuestionKind = List | Confirm | Input
  datatype Default = Text(text: string) | Flag(flag: bool)

  /** One question handed to the prompter. */
  datatype Question = Question(kind: QuestionKind, name: string, message: string, choices: seq<string>, default: Default)

  const TemplateQuestion: Question :=
    Question(List, "template", "Please choose which project template to use", TemplateOpts, Text(DefaultTemplate))
  const GitQuestion: Question :=
    Question(Confirm, "gitInit", "Initialize a git repository?", [], Flag(false))

  /** The database questions, always asked last in interactive mode. */
  const ApiQuestions: seq<Question> := [
    Question(Input, "neo4jUri", "Enter the connection string for Neo4j", [], Text(DefaultUri)),
    Question(Confirm, "neo4jEncrypted", "Use an encrypted connection for Neo4j? (Select \"No\" for Neo4j Sandbox)", [], Flag(false)),
    Question(Input, "neo4jUser", "Enter the Neo4j user", [], Text(DefaultUser)),
    Question(Input, "neo4jPassword", "Enter the password for this user", [], Text(DefaultPassword))
  ]

  /** The prompter's answers; only the answers to asked questions matter. */
  datatype Answers = Answers(template: string, gitInit: bool, creds: Credentials)

  predicate AsksTemplate(options: Options) {
    !options.skipPrompts && !Truthy(options.template)
  }

  predicate AsksGit(options: Options) {
    !options.skipPrompts && !options.gitInit
  }

  /** The questions put to the prompter, built by pushing onto a list. */
  method QuestionsAsked(options: Options) returns (questions: seq<Question>)
    ensures options.skipPrompts ==> questions == []
    ensures !options.skipPrompts ==>
      |questions| == 4 + (if AsksTemplate(options) then 1 else 0) + (if AsksGit(options) then 1 else 0) &&
      questions[|questions| - 4..] == ApiQuestions
    ensures (TemplateQuestion in questions) <==> AsksTemplate(options)
    ensures (GitQuestion in questions) <==> AsksGit(options)
    ensures AsksTemplate(options) ==> questions[0] == TemplateQuestion
  {
    if options.skipPrompts {
      return [];
    }
    questions := [];
    if !Truthy(options.template) {
      questions := questions + [TemplateQuestion];
    }
    if !options.gitInit {
      questions := questions + [GitQuestion];
    }
    questions := questions + ApiQuestions;
  }

  /** `templateOpts.filter((c) => c.toLowerCase() !== chosen.toLowerCase())`. */
  function RemovedTemplates(opts: seq<string>, chosen: string): (r: seq<string>)
    ensures |r| <= |opts|
    ensures forall x :: x in r <==> x in opts && Lower(x) != Lower(chosen)
  {
    if opts == [] then []
    else
      var rest := RemovedTemplates(opts[1..], chosen);
      assert forall x :: x in opts <==> x == opts[0] || x in opts[1..];
      if Lower(opts[0]) != Lower(chosen) then [opts[0]] + rest else rest
  }

  /** When exactly one option matches the choice case-insensitively, the
      filter drops that one and keeps the others in order. */
  lemma {:induction false} RemovedTemplatesDropsOne(opts: seq<string>, chosen: string, j: nat)
    requires j < |opts| && Lower(opts[j]) == Lower(chosen)
    requires forall i :: 0 <= i < |opts| && i != j ==> Lower(opts[i]) != Lower(chosen)
    ensures RemovedTemplates(opts, chosen) == opts[..j] + opts[j + 1..]
  {
    if j == 0 {
      RemovedTemplatesKeepsAll(opts[1..], chosen);
    } else {
      var tail := opts[1..];
      forall i | 0 <= i < |tail| && i != j - 1
        ensures Lower(tail[i]) != Lower(chosen)
      {
        assert tail[i] == opts[i + 1];
      }
      RemovedTemplatesDropsOne(tail, chosen, j - 1);
      DropOneCons(opts, j);
    }
  }

  /** Dropping entry `j > 0` keeps the head and drops entry `j - 1` of the tail. */
  lemma DropOneCons(opts: seq<string>, j: nat)
    requires 0 < j < |opts|
    ensures opts[..j] + opts[j + 1..] == [opts[0]] + (opts[1..][..j - 1] + opts[1..][j..])
  {
    assert opts[..j] == [opts[0]] + opts[1..][..j - 1];
    assert opts[j + 1..] == opts[1..][j..];
  }

  /** When no option matches the choice, nothing is filtered out. */
  lemma {:induction false} RemovedTemplatesKeepsAll(opts: seq<string>, chosen: string)
    requires forall i :: 0 <= i < |opts| ==> Lower(opts[i]) != Lower(chosen)
    ensures RemovedTemplates(opts, chosen) == opts
  {
    if opts != [] {
      RemovedTemplatesKeepsAll(opts[1..], chosen);
      assert [opts[0]] + opts[1..] == opts;
    }
  }

  /** A choice naming one of the three variants (in any letter case)
      removes the other two, in their original order. */
  lemma TemplateChoiceRemovesOthers(chosen: string, j: nat)
    requires j < |TemplateOpts| && Lower(chosen) == Lower(TemplateOpts[j])
    ensures RemovedTemplates(TemplateOpts, chosen) == TemplateOpts[..j] + TemplateOpts[j + 1..]
    ensures |RemovedTemplates(TemplateOpts, chosen)| == 2
  {
    // The three names have different lengths, so no other one matches.
    TemplateLengthsDiffer();
    OthersDiffer(TemplateOpts, chosen, j);
    RemovedTemplatesDropsOne(TemplateOpts, chosen, j);
  }

  lemma TemplateLengthsDiffer()
    ensures forall a, b :: 0 <= a < b < |TemplateOpts| ==> |TemplateOpts[a]| != |TemplateOpts[b]|
  {
    assert |TemplateOpts[0]| == 5 && |TemplateOpts[1]| == 8 && |TemplateOpts[2]| == 7;
  }

  /** In a list of names of pairwise different lengths, a choice matching
      one entry matches no other. */
  lemma OthersDiffer(opts: seq<string>, chosen: string, j: nat)
    requires j < |opts| && Lower(chosen) == Lower(opts[j])
    requires forall a, b :: 0 <= a < b < |opts| ==> |opts[a]| != |opts[b]|
    ensures forall i :: 0 <= i < |opts| && i != j ==> Lower(opts[i]) != Lower(chosen)
  {
    forall i | 0 <= i < |opts| && i != j
      ensures Lower(opts[i]) != Lower(chosen)
    {
      assert |Lower(opts[i])| == |opts[i]| != |opts[j]| == |Lower(opts[j])|;
    }
  }

  /** A choice naming none of the variants removes all three. */
  lemma UnknownTemplateRemovesAll(chosen: string)
    requires forall j :: 0 <= j < |TemplateOpts| ==> Lower(chosen) != Lower(TemplateOpts[j])
    ensures RemovedTemplates(TemplateOpts, chosen) == TemplateOpts
  {
    RemovedTemplatesKeepsAll(TemplateOpts, chosen);
  }

  /** The removal list the `--yes` defaults produce. */
  lemma DefaultRemoval()
    ensures RemovedTemplates(TemplateOpts, DefaultTemplate) == ["React-TS", "Angular"]
  {
    TemplateChoiceRemovesOthers(DefaultTemplate, 0);
  }

  /** `promptForMissingOptions(options)`, with the prompter's replies given
      as `answers`. */
  function PromptForMissingOptions(options: Options, answers: Answers): (c: Config)
    ensures Truthy(options.projectPath) ==> c.projectPath == options.projectPath.value
    ensures !Truthy(options.projectPath) ==> c.projectPath == DefaultPath
    ensures Truthy(options.template) ==> c.template == options.template.value
    ensures !Truthy(options.template) && options.skipPrompts ==> c.template == DefaultTemplate
    ensures AsksTemplate(options) ==> c.template == answers.template
    ensures c.gitInit <==> options.gitInit || (AsksGit(options) && answers.gitInit)
    ensures c.skipPrompts == options.skipPrompts && c.runInstall == options.runInstall && c.useNpm == options.useNpm
    ensures options.skipPrompts ==>
      c.creds == Credentials(DefaultUri, false, DefaultUser, DefaultPassword) &&
      c.rmTemplates == ["React-TS", "Angular"]
    ensures !options.skipPrompts ==> c.creds == answers.creds
    ensures !options.skipPrompts ==> forall x :: x in c.rmTemplates <==> x in TemplateOpts && Lower(x) != Lower(c.template)
  {
    if options.skipPrompts then
      DefaultRemoval();
      Config(
        skipPrompts := options.skipPrompts,
        gitInit := options.gitInit,
        projectPath := OrElse(options.projectPath, DefaultPath),
        template := OrElse(options.template, DefaultTemplate),
        runInstall := options.runInstall,
        useNpm := options.useNpm,
        creds := Credentials(DefaultUri, false, DefaultUser, DefaultPassword),
        rmTemplates := RemovedTemplates(TemplateOpts, DefaultTemplate))
    else
      var chosen := OrElse(options.template, answers.template);
      Config(
        skipPrompts := options.skipPrompts,
        gitInit := options.gitInit || answers.gitInit,
        projectPath := OrElse(options.projectPath, DefaultPath),
        template := chosen,
        runInstall := options.runInstall,
        useNpm := options.useNpm,
        creds := answers.creds,
        rmTemplates := RemovedTemplates(TemplateOpts, chosen))
  }

  /** Answers to questions that were not asked never change the result; in
      `--yes` mode no answer does. */
  lemma UnaskedAnswersIgnored(options: Options, a: Answers, b: Answers)
    requires !options.skipPrompts ==> a.creds == b.creds
    requires AsksTemplate(options) ==> a.template == b.template
    requires AsksGit(options) ==> a.gitInit == b.gitInit
    ensures PromptForMissingOptions(options, a) == PromptForMissingOptions(options, b)
  {
  }

  /** In `--yes` mode the removal list ignores the template argument: asking
      for Angular keeps Angular in the list of directories to delete. */
  lemma YesModeRemovesAngular(options: Options, answers: Answers)
    requires options.skipPrompts && options.template == Some("Angular")
    ensures PromptForMissingOptions(options, answers).template == "Angular"
    ensures "Angular" in PromptForMissingOptions(options, answers).rmTemplates
  {
  }

  /** In interactive mode the removal list never holds the chosen template,
      and holds exactly two entries when the choice is one of the three. */
  lemma InteractiveRemovalExcludesChoice(options: Options, answers: Answers)
    requires !options.skipPrompts
    ensures var c := PromptForMissingOptions(options, answers);
      c.template !in c.rmTemplates &&
      ((exists j :: 0 <= j < |TemplateOpts| && Lower(c.template) == Lower(TemplateOpts[j])) ==> |c.rmTemplates| == 2)
  {
    var c := PromptForMissingOptions(options, answers);
    if j :| 0 <= j < |TemplateOpts| && Lower(c.template) == Lower(TemplateOpts[j]) {
      TemplateChoiceRemovesOthers(c.template, j);
    }
  }
}
