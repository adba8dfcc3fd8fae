/**
 The data shared by the option reader of the dev server command line:
 the values the argument tokenizer produces, the option definitions the
 tokenizer and the usage printer are given, and the two outcomes of
 reading the command line.
 */
module CliTypes {

  /** An optional value, used for the single-character alias of an option. */
  datatype Option<+T> = None | Some(value: T)

  /**
   The value the tokenizer stores under an option name: a string argument,
   a boolean flag, or `Null` for a string-typed option given without an
   argument.
   */
  datatype Value = Str(s: string) | Bool(b: bool) | Null

  /** The value type an option is declared with. */
  datatype OptionType = StringType | BooleanType

  /** One recognised command-line option. */
  datatype OptionDef = OptionDef(
    name: string,
    alias: Option<char>,
    kind: OptionType,
    description: string)

  /** The tokenizer's output: option name (kebab-case) to value. */
  type ParsedArgs = map<string, Value>

  /**
   What reading the command line produces: either a request to print
   usage for the given options (the source prints and exits the process),
   or the configuration keyed by camel-cased option names.
   */
  datatype Outcome = Help(options: seq<OptionDef>) | Config(config: map<string, Value>)
}
