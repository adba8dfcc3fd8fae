/**
 The option registry: the five built-in options of the dev server command
 line, followed by whatever options the caller adds. The tokenizer parses
 against this list and the usage text is rendered from it.
 */
module OptionRegistry {
  import opened CliTypes
  import opened CamelCase

  /** The built-in options, in the order they are declared and listed in the usage text. */
  const DefaultOptions: seq<OptionDef> := [
    OptionDef("config", Some('c'), StringType,
      "The file to read configuration from. Config entries are camelCases flags."),
    OptionDef("root-dir", Some('r'), StringType,
      "The root directory to serve files from. Defaults to the current working directory."),
    OptionDef("open", Some('o'), StringType,
      "Opens the browser on app-index, root dir or a custom path."),
    OptionDef("app-index", Some('a'), StringType,
      "The app's index.html file. When set, serves the index.html for non-file requests. Use this to enable SPA routing."),
    OptionDef("help", None, BooleanType,
      "Print help commands")
  ]

  /** The names of a list of options, in list order. */
  function Names(options: seq<OptionDef>): (names: seq<string>)
    ensures |names| == |options|
    ensures forall i :: 0 <= i < |options| ==> names[i] == options[i].name
  {
    seq(|options|, i requires 0 <= i < |options| => options[i].name)
  }

  /**
   The registry the tokenizer and the usage printer are given: the
   built-ins first, then the caller's extras in their given order. No
   de-duplication takes place.
   */
  function MergeOptions(extras: seq<OptionDef>): (registry: seq<OptionDef>)
    ensures |registry| == |DefaultOptions| + |extras|
    ensures registry[..|DefaultOptions|] == DefaultOptions
    ensures registry[|DefaultOptions|..] == extras
  {
    DefaultOptions + extras
  }

  /** The merged registry starts with `config`, `root-dir`, `open`, `app-index` and `help`, then lists the extras. */
  lemma MergedRegistryLayout(extras: seq<OptionDef>)
    ensures |MergeOptions(extras)| == 5 + |extras|
    ensures Names(MergeOptions(extras))[..5] == ["config", "root-dir", "open", "app-index", "help"]
    ensures forall i :: 0 <= i < |extras| ==> MergeOptions(extras)[5 + i] == extras[i]
  {
    var r := MergeOptions(extras);
    assert r[..5] == DefaultOptions;
    assert Names(r)[..5] == Names(DefaultOptions);
    forall i | 0 <= i < |extras| ensures r[5 + i] == extras[i] {
      assert r[5..][i] == r[5 + i];
    }
  }

  /** Every option of the registry is a built-in or one of the extras, and all of them are kept. */
  lemma MergeKeepsEveryOption(extras: seq<OptionDef>)
    ensures forall o :: o in MergeOptions(extras) <==> o in DefaultOptions || o in extras
  {
    var r := MergeOptions(extras);
    forall o | o in extras ensures o in r {
      var i :| 0 <= i < |extras| && extras[i] == o;
      assert r[|DefaultOptions|..][i] == o;
    }
  }

  /** Merging extras in two steps gives the registry of merging them at once. */
  lemma MergeAppends(extras: seq<OptionDef>, more: seq<OptionDef>)
    ensures MergeOptions(extras + more) == MergeOptions(extras) + more
  {
    var d := DefaultOptions;
    assert d + (extras + more) == (d + extras) + more;
  }

  /** The built-in names are kebab-case names. */
  lemma BuiltinNamesAreKebab()
    ensures forall i :: 0 <= i < |DefaultOptions| ==> KebabName(DefaultOptions[i].name)
  {
    assert KebabName("config");
    assert KebabName("root-dir");
    assert KebabName("open");
    assert KebabName("app-index");
    assert KebabName("help");
  }

  /** No two built-ins share a name, and no two share an alias. */
  lemma BuiltinNamesDistinct()
    ensures forall i, j :: 0 <= i < j < |DefaultOptions| ==>
      DefaultOptions[i].name != DefaultOptions[j].name
    ensures forall i, j :: 0 <= i < j < |DefaultOptions| && DefaultOptions[i].alias.Some? ==>
      DefaultOptions[i].alias != DefaultOptions[j].alias
  {
  }

  /** The hyphen-free built-in names are their own camel-case form. */
  lemma BuiltinPlainNames()
    ensures Camel("config") == "config" && Camel("open") == "open" && Camel("help") == "help"
  {
    var config, open, help := "config", "open", "help";
    assert NoHyphen(config) && NoHyphen(open) && NoHyphen(help);
    CamelKeepsHyphenFree(config);
    CamelKeepsHyphenFree(open);
    CamelKeepsHyphenFree(help);
  }

  /** `root-dir` renames to `rootDir`. */
  lemma RootDirCamel()
    ensures Camel("root-dir") == "rootDir"
  {
    CamelJoin("root", 'd', "ir");
    assert "root" + ['-', 'd'] + "ir" == "root-dir";
    assert "root" + [ToUpper('d')] + "ir" == "rootDir";
  }

  /** `app-index` renames to `appIndex`. */
  lemma AppIndexCamel()
    ensures Camel("app-index") == "appIndex"
  {
    CamelJoin("app", 'i', "ndex");
    assert "app" + ['-', 'i'] + "ndex" == "app-index";
    assert "app" + [ToUpper('i')] + "ndex" == "appIndex";
  }
}
