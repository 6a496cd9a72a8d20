/**
 The parts of the plugin-facing types that the pinned-result bookkeeping reads:
 the query a result was produced for, the result itself, and the regular
 expressions a plugin may attach to a result.
 */
module Plugin {
  import opened Wrappers

  /**
   A compiled regular expression. The regex engine is a foreign library, so a
   pattern is represented only by what matching it against an input yields:
   `None` when the match fails, `Some(groups)` when it succeeds, where
   `groups[0]` is the whole match and `groups[i]`, `i >= 1`, the value
   captured by group `i`. Every property proved about a `Regex` therefore
   holds for every behaviour the engine may have.
   */
  datatype Regex = Regex(matcher: string -> Option<seq<string>>)
  {
    function Match(input: string): Option<seq<string>>
    {
      matcher(input)
    }
  }

  /** The query a result answers; `rawQuery` is the text exactly as typed. */
  datatype Query = Query(rawQuery: string)

  /**
   A result produced by a plugin. `originQuery` may be absent (a null
   reference in the source); the two regexes are optional and, when present,
   narrow the pin-equality check on the title and the subtitle.
   */
  datatype Result = Result(
    title: string,
    subTitle: string,
    pluginId: string,
    originQuery: Option<Query>,
    titleEqualRegex: Option<Regex>,
    subTitleEqualRegex: Option<Regex>)
}
