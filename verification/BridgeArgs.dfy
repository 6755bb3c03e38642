/** The `bridge` command's argv: options anywhere among the positionals. */
module BridgeArgs {
  import opened Common
  import opened Text

  /** The shared option table: eight flags and four options that take a value. */
  datatype Opt = Json | Strict | RequireReady | ApiKeyStdin | Confirm | NoRestart | Stdin | Supervised
               | Level | Host | Settings | Set

  predicate TakesValue(o: Opt) { o == Level || o == Host || o == Settings || o == Set }

  function Spelled(o: Opt): string {
    match o
    case Json => "--json"
    case Strict => "--strict"
    case RequireReady => "--require-ready"
    case ApiKeyStdin => "--api-key-stdin"
    case Confirm => "--confirm"
    case NoRestart => "--no-restart"
    case Stdin => "--stdin"
    case Supervised => "--supervised"
    case Level => "--level"
    case Host => "--host"
    case Settings => "--settings"
    case Set => "--set"
  }

  /** Membership in the option table. */
  function OptOf(s: string): Option<Opt> {
    if s == "--json" then Some(Json)
    else if s == "--strict" then Some(Strict)
    else if s == "--require-ready" then Some(RequireReady)
    else if s == "--api-key-stdin" then Some(ApiKeyStdin)
    else if s == "--confirm" then Some(Confirm)
    else if s == "--no-restart" then Some(NoRestart)
    else if s == "--stdin" then Some(Stdin)
    else if s == "--supervised" then Some(Supervised)
    else if s == "--level" then Some(Level)
    else if s == "--host" then Some(Host)
    else if s == "--settings" then Some(Settings)
    else if s == "--set" then Some(Set)
    else None
  }

  lemma OptOfSpelled(o: Opt)
    ensures OptOf(Spelled(o)) == Some(o)
    ensures |Spelled(o)| >= 2 && Spelled(o)[0] == '-' && Spelled(o)[1] == '-' && '=' !in Spelled(o)
  {
  }

  lemma SpelledOfOpt(s: string)
    ensures OptOf(s).Some? ==> s == Spelled(OptOf(s).value)
  {
  }

  datatype Error = SecretArgvForbidden | EqualsSyntax | DuplicateOption | ValueMissing | UnknownOption
                 | OptionNotAllowed | CommandInvalid | StdinRequired | StdinPayloadInvalid
                 | SettingsPathNotAbsolute | SettingsPathInvalid | LevelInvalid | ProviderInvalid
                 | ApiKeyStdinRequired | HostRequired | ApiKeyEmpty | ApiKeyTooLarge
                 | ConfirmationRequired | OfficialModelsModeInvalid

  datatype Result<+T> = Success(value: T) | Failure(error: Error)

  datatype Args = Args(positionals: seq<string>, flags: set<Opt>, values: map<Opt, string>)

  const NO_ARGS := Args([], {}, map[])

  predicate IsOption(s: string) { |s| >= 2 && s[0] == '-' && s[1] == '-' }

  /** Parsing from one token on, with what was collected so far. */
  function ParseFrom(args: seq<string>, a: Args): Result<Args>
    decreases |args|
  {
    if args == [] then Success(a)
    else if !IsOption(args[0]) then ParseFrom(args[1..], a.(positionals := a.positionals + [args[0]]))
    else if '=' in args[0] then Failure(EqualsSyntax)
    else
      match OptOf(args[0])
      case None => Failure(UnknownOption)
      case Some(o) =>
        if TakesValue(o) then
          if o in a.values then Failure(DuplicateOption)
          else if |args| == 1 || args[1] == [] || IsOption(args[1]) then Failure(ValueMissing)
          else ParseFrom(args[2..], a.(values := a.values[o := args[1]]))
        else if o in a.flags then Failure(DuplicateOption)
        else ParseFrom(args[1..], a.(flags := a.flags + {o}))
  }

  function Parse(args: seq<string>): Result<Args> { ParseFrom(args, NO_ARGS) }

  /** The parser's index loop. */
  method ParseArgs(args: seq<string>) returns (r: Result<Args>)
    ensures r == Parse(args)
  {
    var positionals, flags: set<Opt>, values: map<Opt, string> := [], {}, map[];
    var index := 0;
    while index < |args|
      invariant index <= |args|
      invariant ParseFrom(args[index..], Args(positionals, flags, values)) == Parse(args)
    {
      hide OptOf;
      var value := args[index];
      assert args[index..][1..] == args[index + 1..];
      if !IsOption(value) {
        positionals := positionals + [value];
        index := index + 1;
        continue;
      }
      if '=' in value { return Failure(EqualsSyntax); }
      match OptOf(value) {
        case None => return Failure(UnknownOption);
        case Some(o) =>
          if TakesValue(o) {
            if o in values { return Failure(DuplicateOption); }
            if index + 1 == |args| || args[index + 1] == [] || IsOption(args[index + 1]) { return Failure(ValueMissing); }
            assert args[index..][2..] == args[index + 2..];
            values := values[o := args[index + 1]];
            index := index + 2;
          } else {
            if o in flags { return Failure(DuplicateOption); }
            flags := flags + {o};
            index := index + 1;
          }
      }
    }
    r := Success(Args(positionals, flags, values));
  }

  // ---- printing ----

  /** One element of a command line. */
  datatype Item = Positional(text: string) | Flag(opt: Opt) | Valued(opt: Opt, text: string)

  predicate WellFormed(i: Item) {
    match i
    case Positional(text) => !IsOption(text)
    case Flag(o) => !TakesValue(o)
    case Valued(o, text) => TakesValue(o) && text != [] && !IsOption(text)
  }

  function Tokens(i: Item): seq<string> {
    match i
    case Positional(text) => [text]
    case Flag(o) => [Spelled(o)]
    case Valued(o, text) => [Spelled(o), text]
  }

  function Flatten(items: seq<Item>): seq<string> {
    if items == [] then [] else Tokens(items[0]) + Flatten(items[1..])
  }

  /** The collection after one more element. */
  function Collected(a: Args, i: Item): Args {
    match i
    case Positional(text) => a.(positionals := a.positionals + [text])
    case Flag(o) => a.(flags := a.flags + {o})
    case Valued(o, text) => a.(values := a.values[o := text])
  }

  function CollectFrom(items: seq<Item>, a: Args): Args
    decreases |items|
  {
    if items == [] then a else CollectFrom(items[1..], Collected(a, items[0]))
  }

  function Collect(items: seq<Item>): Args { CollectFrom(items, NO_ARGS) }

  predicate New(a: Args, i: Item) {
    match i
    case Positional(_) => true
    case Flag(o) => o !in a.flags
    case Valued(o, _) => o !in a.values
  }

  /** Every element is well formed and no option repeats. */
  predicate PrintableFrom(items: seq<Item>, a: Args)
    decreases |items|
  {
    items == [] || (WellFormed(items[0]) && New(a, items[0]) && PrintableFrom(items[1..], Collected(a, items[0])))
  }

  predicate Printable(items: seq<Item>) { PrintableFrom(items, NO_ARGS) }

  lemma FlattenStep(items: seq<Item>)
    requires items != []
    ensures var t := Tokens(items[0]);
            |t| >= 1 && Flatten(items)[0] == t[0] && Flatten(items)[|t|..] == Flatten(items[1..])
            && (|t| == 2 ==> |Flatten(items)| >= 2 && Flatten(items)[1] == t[1])
  {
  }

  lemma {:induction false} ParseOfFlattenFrom(items: seq<Item>, a: Args)
    requires PrintableFrom(items, a)
    ensures ParseFrom(Flatten(items), a) == Success(CollectFrom(items, a))
    decreases |items|
  {
    if items != [] {
      FlattenStep(items);
      if !items[0].Positional? {
        OptOfSpelled(items[0].opt);
      }
      hide OptOf, Spelled;
      ParseOfFlattenFrom(items[1..], Collected(a, items[0]));
    }
  }

  /** Parsing inverts printing, wherever the options stand. */
  lemma ParseOfFlatten(items: seq<Item>)
    requires Printable(items)
    ensures Parse(Flatten(items)) == Success(Collect(items))
  {
    ParseOfFlattenFrom(items, NO_ARGS);
  }

  lemma {:induction false} FlattenOfParseFrom(args: seq<string>, a: Args) returns (items: seq<Item>)
    requires ParseFrom(args, a).Success?
    ensures PrintableFrom(items, a) && Flatten(items) == args && CollectFrom(items, a) == ParseFrom(args, a).value
    decreases |args|
  {
    hide OptOf, Spelled;
    if args == [] {
      items := [];
    } else {
      var first, rest := Positional(args[0]), args[1..];
      if IsOption(args[0]) {
        SpelledOfOpt(args[0]);
        var o := OptOf(args[0]).value;
        if TakesValue(o) {
          first, rest := Valued(o, args[1]), args[2..];
        } else {
          first := Flag(o);
        }
      }
      assert args == Tokens(first) + rest;
      var tail := FlattenOfParseFrom(rest, Collected(a, first));
      items := [first] + tail;
      assert items[0] == first && items[1..] == tail;
    }
  }

  /** An accepted command line splits into positionals, flags and option-value pairs in exactly the way
      that was collected: each token is in one of them. */
  lemma FlattenOfParse(args: seq<string>) returns (items: seq<Item>)
    requires Parse(args).Success?
    ensures Printable(items) && Flatten(items) == args && Collect(items) == Parse(args).value
  {
    items := FlattenOfParseFrom(args, NO_ARGS);
  }

  /** Parsing succeeds on exactly the printed command lines. */
  lemma ParsesExactlyPrinted(args: seq<string>)
    ensures Parse(args).Success? <==> exists items :: Printable(items) && Flatten(items) == args
  {
    if Parse(args).Success? {
      var items := FlattenOfParse(args);
      assert Printable(items) && Flatten(items) == args;
    }
    forall items | Printable(items) && Flatten(items) == args ensures Parse(args).Success? {
      ParseOfFlatten(items);
    }
  }

  // ---- secrets on the command line ----

  function BeforeEquals(s: string): string {
    if s == [] || s[0] == '=' then [] else [s[0]] + BeforeEquals(s[1..])
  }

  /** `toLowerCase`, as far as it can give one of the letters of the secret words: the ASCII capitals, and the Kelvin
      sign for a k. */
  function Lower(s: string): string {
    if s == [] then [] else [LowerChar(s[0])] + Lower(s[1..])
  }

  function LowerChar(c: char): char {
    if 'A' <= c <= 'Z' then (c as int + 32) as char else if c == '\U{212A}' then 'k' else c
  }

  const SECRET_WORDS := ["api-key", "api_key", "apikey", "secret", "token", "authorization", "bearer", "password"]

  predicate Names(option: string, word: string) {
    option == "--" + word || StartsWith(option, "--" + word + "-")
  }

  /** An option that would carry a secret in the argv. */
  predicate SecretLike(arg: string) {
    var option := Lower(BeforeEquals(arg));
    option != "--api-key-stdin" && exists i | 0 <= i < |SECRET_WORDS| :: Names(option, SECRET_WORDS[i])
  }

  predicate NoSecrets(args: seq<string>) { forall i | 0 <= i < |args| :: !SecretLike(args[i]) }

  /** The scan for secrets. */
  method HasSecretArgv(args: seq<string>) returns (found: bool)
    ensures found == !NoSecrets(args)
  {
    for i := 0 to |args|
      invariant NoSecrets(args[..i])
    {
      if SecretLike(args[i]) { return true; }
      assert forall j | 0 <= j < i :: args[..i + 1][j] == args[..i][j];
    }
    assert args[..|args|] == args;
    found := false;
  }

  lemma NamesPrefix(option: string, word: string, k: nat)
    requires Names(option, word) && k < |word|
    ensures IsOption(option) && |option| >= 2 + |word| && option[2 + k] == word[k]
  {
    var p := "--" + word;
    assert p <= option && p[0] == '-' && p[1] == '-' && p[2 + k] == word[k];
  }

  lemma SecretIsOption(s: string)
    requires SecretLike(s)
    ensures IsOption(s)
  {
    var b := BeforeEquals(s);
    var option := Lower(b);
    var i :| 0 <= i < |SECRET_WORDS| && Names(option, SECRET_WORDS[i]);
    NamesPrefix(option, SECRET_WORDS[i], 0);
    LowerStarts(b);
    assert s != [] && s[0] != '=' && b[0] == s[0] && b[1..] == BeforeEquals(s[1..]);
  }

  lemma LowerStarts(b: string)
    requires IsOption(Lower(b))
    ensures IsOption(b)
  {
    assert b != [] && Lower(b)[1..] == Lower(b[1..]);
    assert Lower(b)[1] == Lower(b[1..])[0];
  }

  predicate PlainLower(s: string) { forall i | 0 <= i < |s| :: LowerChar(s[i]) == s[i] && s[i] != '=' }

  lemma {:induction false} LowerKeepsLower(s: string)
    requires PlainLower(s)
    ensures BeforeEquals(s) == s && Lower(s) == s
  {
    if s != [] {
      LowerKeepsLower(s[1..]);
    }
  }

  lemma SpelledIsLower(o: Opt)
    ensures PlainLower(Spelled(o)) && |Spelled(o)| >= 5
    ensures var s := Spelled(o); o != ApiKeyStdin ==>
              s[2] in {'j', 's', 'r', 'c', 'n', 'l', 'h'} && (s[2] == 's' ==> s[3] != 'e' || s[4] != 'c')
  {
  }

  lemma SecretWordShape(i: nat)
    requires i < |SECRET_WORDS|
    ensures var w := SECRET_WORDS[i];
            |w| >= 3 && (w[0] in {'a', 't', 'b', 'p'} || (w[0] == 's' && w[1] == 'e' && w[2] == 'c'))
  {
  }

  lemma SecretShape(option: string, i: nat)
    requires i < |SECRET_WORDS| && Names(option, SECRET_WORDS[i])
    ensures |option| >= 5
    ensures option[2] in {'a', 't', 'b', 'p'} || (option[2] == 's' && option[3] == 'e' && option[4] == 'c')
  {
    SecretWordShape(i);
    hide Names;
    var w := SECRET_WORDS[i];
    NamesPrefix(option, w, 0);
    NamesPrefix(option, w, 1);
    NamesPrefix(option, w, 2);
  }

  /** No registered option is itself taken for a secret. */
  lemma SpelledIsNotSecret(o: Opt)
    ensures !SecretLike(Spelled(o))
  {
    var s := Spelled(o);
    SpelledIsLower(o);
    LowerKeepsLower(s);
    assert o == ApiKeyStdin ==> s == "--api-key-stdin";
    hide Spelled, PlainLower, Lower, BeforeEquals, Names;
    if SecretLike(s) {
      var i :| 0 <= i < |SECRET_WORDS| && Names(s, SECRET_WORDS[i]);
      SecretShape(s, i);
      assert false;
    }
  }

  lemma TokenIsNotSecret(item: Item, k: nat)
    requires WellFormed(item) && k < |Tokens(item)|
    ensures !SecretLike(Tokens(item)[k])
  {
    hide SecretLike;
    if !item.Positional? {
      SpelledIsNotSecret(item.opt);
    }
    if SecretLike(Tokens(item)[k]) {
      SecretIsOption(Tokens(item)[k]);
    }
  }

  lemma {:induction false} FlattenHasNoSecrets(items: seq<Item>, a: Args)
    requires PrintableFrom(items, a)
    ensures NoSecrets(Flatten(items))
    decreases |items|
  {
    if items != [] {
      FlattenHasNoSecrets(items[1..], Collected(a, items[0]));
      hide SecretLike, IsOption, Tokens, Spelled;
      var t, rest := Tokens(items[0]), Flatten(items[1..]);
      forall k | 0 <= k < |t| ensures !SecretLike(t[k]) { TokenIsNotSecret(items[0], k); }
      forall k | 0 <= k < |t + rest| ensures !SecretLike((t + rest)[k]) {
        assert k >= |t| ==> !SecretLike(rest[k - |t|]);
      }
    }
  }
}
