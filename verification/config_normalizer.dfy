/**
 The steps of reading the command line that follow tokenizing: a bare
 `--open` becomes `true`, `--help` turns the whole call into a usage
 request, and otherwise every parsed key is renamed to camel case with its
 value kept.
 */
module ConfigNormalizer {
  import opened CliTypes
  import opened CamelCase
  import opened OptionRegistry

  /**
   `open` is declared string-typed so that it can take a path, but given
   bare the tokenizer stores a non-string for it; that value becomes
   `true`. A string is kept, an absent `open` stays absent.
   */
  function DefaultOpen(parsed: ParsedArgs): (args: ParsedArgs)
    ensures args.Keys == parsed.Keys
    ensures "open" in parsed && !parsed["open"].Str? ==> args["open"] == Bool(true)
    ensures "open" in parsed && parsed["open"].Str? ==> args["open"] == parsed["open"]
    ensures forall k :: k in parsed && k != "open" ==> args[k] == parsed[k]
  {
    if "open" in parsed && !parsed["open"].Str? then parsed["open" := Bool(true)] else parsed
  }

  /** After defaulting, `open` holds a string or `true`, and defaulting again changes nothing. */
  lemma DefaultOpenSettles(parsed: ParsedArgs)
    ensures "open" in DefaultOpen(parsed) ==>
      DefaultOpen(parsed)["open"].Str? || DefaultOpen(parsed)["open"] == Bool(true)
    ensures DefaultOpen(DefaultOpen(parsed)) == DefaultOpen(parsed)
  {
  }

  /** The camel-case names of a set of keys. */
  function CamelKeys(keys: set<string>): set<string>
  {
    set k | k in keys :: Camel(k)
  }

  /** No other key of `keys` renames to the same name as `k`. */
  predicate CamelUnique(keys: set<string>, k: string)
  {
    forall k' :: k' in keys && Camel(k') == Camel(k) ==> k' == k
  }

  /**
   `config` is a renaming of `args`: its keys are exactly the camel-case
   names of the keys of `args`, and each holds the value of a key of
   `args` that renames to it. Which key wins when two rename alike is
   left open, because the order the tokenizer inserted keys in is not
   part of a map.
   */
  ghost predicate NormalizedFrom(config: map<string, Value>, args: ParsedArgs)
  {
    && config.Keys == CamelKeys(args.Keys)
    && forall c :: c in config ==> TakenFrom(config, args, c)
  }

  /** The value of `config` at `c` is the value of a key of `args` that renames to `c`. */
  ghost predicate TakenFrom(config: map<string, Value>, args: ParsedArgs, c: string)
    requires c in config
  {
    exists k :: k in args && Camel(k) == c && config[c] == args[k]
  }

  /** A key whose name no other key shares keeps its value under its camel-case name. */
  lemma NormalizedKeepsValue(config: map<string, Value>, args: ParsedArgs, k: string)
    requires NormalizedFrom(config, args)
    requires k in args && CamelUnique(args.Keys, k)
    ensures Camel(k) in config && config[Camel(k)] == args[k]
  {
    assert Camel(k) in CamelKeys(args.Keys);
    assert TakenFrom(config, args, Camel(k));
    var k' :| k' in args && Camel(k') == Camel(k) && config[Camel(k)] == args[k'];
  }

  /** Every key whose name no other key shares keeps its value under its camel-case name. */
  lemma NormalizedKeepsValues(config: map<string, Value>, args: ParsedArgs)
    requires NormalizedFrom(config, args)
    ensures forall k :: k in args && CamelUnique(args.Keys, k) ==>
      Camel(k) in config && config[Camel(k)] == args[k]
  {
    forall k | k in args && CamelUnique(args.Keys, k)
      ensures Camel(k) in config && config[Camel(k)] == args[k]
    {
      NormalizedKeepsValue(config, args, k);
    }
  }

  /** Kebab-case keys never share a camel-case name. */
  lemma SegmentedKeysAreUnique(args: ParsedArgs)
    requires forall k :: k in args ==> Segmented(k)
    ensures forall k :: k in args ==> CamelUnique(args.Keys, k)
  {
    forall k, k' | k in args && k' in args && Camel(k') == Camel(k) ensures k' == k {
      CamelInjective(k, k');
    }
  }

  /** Arguments that use only built-in option names never share a camel-case name. */
  lemma BuiltinKeysAreUnique(parsed: ParsedArgs)
    requires forall k :: k in parsed ==> k in Names(DefaultOptions)
    ensures forall k :: k in parsed ==> CamelUnique(parsed.Keys, k)
  {
    BuiltinNamesAreKebab();
    forall k | k in parsed ensures Segmented(k) {
      var i :| 0 <= i < |DefaultOptions| && Names(DefaultOptions)[i] == k;
      assert KebabName(DefaultOptions[i].name);
    }
    SegmentedKeysAreUnique(parsed);
  }

  /** Without shared names there is exactly one renaming. */
  lemma NormalizedIsDeterministic(c1: map<string, Value>, c2: map<string, Value>, args: ParsedArgs)
    requires forall k :: k in args ==> CamelUnique(args.Keys, k)
    requires NormalizedFrom(c1, args) && NormalizedFrom(c2, args)
    ensures c1 == c2
  {
    forall c | c in c1 ensures c in c2 && c1[c] == c2[c] {
      assert TakenFrom(c1, args, c);
      var k :| k in args && Camel(k) == c && c1[c] == args[k];
      NormalizedKeepsValue(c2, args, k);
    }
  }

  /** A configuration whose keys have no hyphen is its own only renaming. */
  lemma NormalizingCamelKeysIsIdentity(config: map<string, Value>, again: map<string, Value>)
    requires forall c :: c in config ==> NoHyphen(c)
    requires NormalizedFrom(again, config)
    ensures again == config
  {
    forall c | c in config ensures Camel(c) == c {
      CamelKeepsHyphenFree(c);
    }
    assert CamelKeys(config.Keys) == config.Keys;
    assert NormalizedFrom(config, config) by {
      forall c | c in config ensures TakenFrom(config, config, c) {
        assert Camel(c) == c;
      }
    }
    NormalizedIsDeterministic(again, config, config);
  }

  /** Renaming an already renamed configuration gives it back unchanged. */
  lemma NormalizedIsIdempotent(config: map<string, Value>, args: ParsedArgs, again: map<string, Value>)
    requires forall k :: k in args ==> Segmented(k)
    requires NormalizedFrom(config, args)
    requires NormalizedFrom(again, config)
    ensures again == config
  {
    forall c | c in config ensures NoHyphen(c) {
      assert TakenFrom(config, args, c);
      var k :| k in args && Camel(k) == c && config[c] == args[k];
      CamelOfSegmentedHasNoHyphen(k);
    }
    NormalizingCamelKeysIsIdentity(config, again);
  }

  /** Adding a key adds its camel-case name. */
  lemma CamelKeysInsert(keys: set<string>, k: string)
    ensures CamelKeys(keys + {k}) == CamelKeys(keys) + {Camel(k)}
  {
  }

  /** Each entry of the extended configuration is still taken from the extended arguments. */
  lemma TakenFromAfterStep(config: map<string, Value>, done: ParsedArgs, k: string, v: Value, c: string)
    requires NormalizedFrom(config, done)
    requires c in config[Camel(k) := v]
    ensures TakenFrom(config[Camel(k) := v], done[k := v], c)
  {
    var config' := config[Camel(k) := v];
    var done' := done[k := v];
    if c == Camel(k) {
      assert k in done' && Camel(k) == c && config'[c] == done'[k];
    } else {
      assert TakenFrom(config, done, c);
      var k' :| k' in done && Camel(k') == c && config[c] == done[k'];
      assert k' in done' && Camel(k') == c && config'[c] == done'[k'];
    }
  }

  /** Adding one key to the arguments adds its renamed entry to the configuration. */
  lemma NormalizedStep(config: map<string, Value>, done: ParsedArgs, k: string, v: Value)
    requires NormalizedFrom(config, done)
    ensures NormalizedFrom(config[Camel(k) := v], done[k := v])
  {
    var config' := config[Camel(k) := v];
    var done' := done[k := v];
    assert done'.Keys == done.Keys + {k};
    CamelKeysInsert(done.Keys, k);
    forall c | c in config' ensures TakenFrom(config', done', c) {
      TakenFromAfterStep(config, done, k, v, c);
    }
  }

  /** Visiting key `k` adds exactly the entry of `k` to the visited part of `args`. */
  lemma VisitOneMore(args: ParsedArgs, todo: set<string>, k: string)
    requires k in todo && todo <= args.Keys
    ensures args - (todo - {k}) == (args - todo)[k := args[k]]
  {
  }

  /** Before any key is visited, the empty configuration renames the empty visited part. */
  lemma NothingVisited(args: ParsedArgs)
    ensures NormalizedFrom(map[], args - args.Keys)
  {
    assert args - args.Keys == map[];
  }

  /** Once every key is visited, the visited part is all of `args`. */
  lemma AllVisited(args: ParsedArgs)
    ensures args - {} == args
  {
  }

  /** Renames every key of `args` to camel case, keeping its value. */
  method Normalize(args: ParsedArgs) returns (config: map<string, Value>)
    ensures NormalizedFrom(config, args)
    ensures forall k :: k in args && CamelUnique(args.Keys, k) ==>
      Camel(k) in config && config[Camel(k)] == args[k]
  {
    config := map[];
    var todo := args.Keys;
    NothingVisited(args);
    while todo != {}
      invariant todo <= args.Keys
      invariant NormalizedFrom(config, args - todo)
      decreases todo
    {
      var k :| k in todo;
      NormalizedStep(config, args - todo, k, args[k]);
      VisitOneMore(args, todo, k);
      config := config[Camel(k) := args[k]];
      todo := todo - {k};
    }
    AllVisited(args);
    NormalizedKeepsValues(config, args);
  }

  /**
   Reads the command line from the tokenizer's output `parsed`, with the
   caller's `extras` added to the registry. A `help` key, whatever its
   value, yields the usage request for the whole registry; otherwise the
   defaulted arguments are renamed to camel case.
   */
  method ReadCliArgsConfig(extras: seq<OptionDef>, parsed: ParsedArgs) returns (outcome: Outcome)
    ensures outcome.Help? <==> "help" in parsed
    ensures outcome.Help? ==> outcome.options == MergeOptions(extras)
    ensures outcome.Config? ==> NormalizedFrom(outcome.config, DefaultOpen(parsed))
    ensures outcome.Config? ==> forall k :: k in parsed && CamelUnique(parsed.Keys, k) ==>
      Camel(k) in outcome.config && outcome.config[Camel(k)] == DefaultOpen(parsed)[k]
    ensures outcome.Config? && "open" in parsed && CamelUnique(parsed.Keys, "open") ==>
      "open" in outcome.config &&
      outcome.config["open"] == (if parsed["open"].Str? then parsed["open"] else Bool(true))
    ensures parsed == map[] ==> outcome == Config(map[])
  {
    var options := MergeOptions(extras);
    var args := DefaultOpen(parsed);
    if "help" in args {
      return Help(options);
    }
    BuiltinPlainNames();
    var config := Normalize(args);
    return Config(config);
  }

  /** No arguments give an empty configuration. */
  lemma NoArgumentsExample(config: map<string, Value>)
    requires NormalizedFrom(config, DefaultOpen(map[]))
    ensures config == map[]
  {
    assert config.Keys == {};
  }

  /** An extra boolean option `watch` given as `--watch` yields exactly `watch: true`. */
  lemma WatchFlagExample(config: map<string, Value>)
    requires NormalizedFrom(config, DefaultOpen(map["watch" := Bool(true)]))
    ensures config == map["watch" := Bool(true)]
  {
    var args := map["watch" := Bool(true)];
    assert DefaultOpen(args) == args;
    CamelKeepsHyphenFree("watch");
    assert CamelKeys(args.Keys) == {"watch"};
    NormalizedKeepsValue(config, args, "watch");
  }

  /** Two keys with distinct camel-case names are renamed independently. */
  lemma NormalizedPair(config: map<string, Value>, a: string, va: Value, b: string, vb: Value)
    requires Camel(a) != Camel(b)
    requires NormalizedFrom(config, map[a := va, b := vb])
    ensures config == map[Camel(a) := va, Camel(b) := vb]
  {
    var args := map[a := va, b := vb];
    assert args.Keys == {a, b};
    assert CamelKeys({a, b}) == {Camel(a), Camel(b)};
    NormalizedKeepsValue(config, args, a);
    NormalizedKeepsValue(config, args, b);
  }

  /** A bare `--open` next to `--root-dir site` is defaulted to `true`, and `root-dir` is kept. */
  lemma BareOpenDefaulted()
    ensures DefaultOpen(map["open" := Null, "root-dir" := Str("site")])
      == map["open" := Bool(true), "root-dir" := Str("site")]
  {
  }

  /** A bare `--open` next to `--root-dir site` yields `open: true` and `rootDir: "site"`. */
  lemma BareOpenExample(config: map<string, Value>)
    requires NormalizedFrom(config, DefaultOpen(map["open" := Null, "root-dir" := Str("site")]))
    ensures config == map["open" := Bool(true), "rootDir" := Str("site")]
  {
    BareOpenDefaulted();
    BuiltinPlainNames();
    RootDirCamel();
    NormalizedPair(config, "open", Bool(true), "root-dir", Str("site"));
  }
}
