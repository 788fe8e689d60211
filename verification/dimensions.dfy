/** The dimension tables of the bot plugin (`DIMENSION` in
    src/bot/bot/constants.py). */
module Dimensions {
  import opened Basics

  const Overworld: int := 0
  const TheNether: int := -1
  const TheEnd: int := 1

  /** The three dimension ids. */
  predicate IsDimension(d: int)
  {
    d == Overworld || d == TheNether || d == TheEnd
  }

  /** The keys of `COMMAND_TRANSLATION`, in declaration order. */
  const CommandKeys: seq<string> := [
    "0", "-1", "1",
    "overworld", "the_nether", "the_end",
    "minecraft:overworld", "minecraft:the_nether", "minecraft:the_end",
    "nether", "end"
  ]

  /** `COMMAND_TRANSLATION.get(key)`: the dimension a command argument names. */
  function CommandTranslation(key: string): (r: Option<int>)
    ensures r.Some? <==> key in CommandKeys
    ensures r.Some? ==> IsDimension(r.value)
  {
    if key == "0" || key == "overworld" || key == "minecraft:overworld" then Some(Overworld)
    else if key == "-1" || key == "the_nether" || key == "minecraft:the_nether" || key == "nether" then Some(TheNether)
    else if key == "1" || key == "the_end" || key == "minecraft:the_end" || key == "end" then Some(TheEnd)
    else None
  }

  /** `USING_TRANSLATION.get(d)`: the resource name of a dimension id. */
  function UsingTranslation(d: int): (r: Option<string>)
    ensures r.Some? <==> IsDimension(d)
    ensures r.Some? ==> StartsWith(r.value, "minecraft:")
  {
    if d == Overworld then Some("minecraft:overworld")
    else if d == TheNether then Some("minecraft:the_nether")
    else if d == TheEnd then Some("minecraft:the_end")
    else None
  }

  /** Every id the command table yields has a resource name, and reading that
      name back through the command table gives the same id. */
  lemma UsingCommandRoundTrip(key: string)
    requires key in CommandKeys
    ensures UsingTranslation(CommandTranslation(key).value).Some?
    ensures CommandTranslation(UsingTranslation(CommandTranslation(key).value).value) == CommandTranslation(key)
  {
  }

  /** A resource name maps back to its own id. */
  lemma CommandUsingRoundTrip(d: int)
    requires IsDimension(d)
    ensures UsingTranslation(d).value in CommandKeys
    ensures CommandTranslation(UsingTranslation(d).value) == Some(d)
  {
  }
}
