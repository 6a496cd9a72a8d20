# Pinned ("top-most") results of Flow Launcher

A model of `Flow.Launcher/Storage/TopMostRecord.cs`. A user can pin a result
so that it is always ranked first for the exact query text they typed. Two
parts decide this:

- `TopMostRecord` is the store of pinned results. It maps each raw query to
  at most one `Record`, which holds the title, the subtitle and the plugin id.
  It offers `IsTopMost`, `AddOrUpdate`, `Remove` and `Load`. In the model it
  is a class with a `map<string, Record>` field.
- `Record.Equals` and `AdvancedStringComparer.Equal` decide whether a freshly
  computed `Result` is the pinned one. The plugin id is always compared
  exactly. A title or subtitle without a regex is also compared exactly. With
  a regex, only the matched parts are compared.

Files:

- `wrappers.dfy`: `Option`, which stands for the source's nullable references.
- `plugin.dfy`: the parts of `Result`, `Query` and `Regex` that the core reads.
  The .NET regex engine is a foreign library. A `Regex` is therefore an
  arbitrary function from the input to `None` (no match) or to
  `Some(groups)`, where `groups[0]` is the whole match. Every lemma holds for
  every such function.
- `records.dfy`: `Record`, `Record.Equals` and `AdvancedStringComparer`. The
  predicate `AdvancedStringComparer.Equivalent` is the specification, and
  `AdvancedStringComparer.Equal` is the source's loop, proved against it.
  Its contract says that two strings compare equal exactly when they have
  the same comparison key. The key is the string itself when the regex does
  not match it. Otherwise it is the group count plus the captured groups, or
  the whole match when the pattern has no capturing group. Hence the
  comparer is an equivalence relation, and text outside the groups is
  ignored.
- `storage.dfy`: the class `TopMostRecord`. It also holds a client method,
  `RepinThenUnpin`, which shows what a caller can derive from the contracts
  alone.

## Model

| member | source | states |
|---|---|---|
| `Records.AdvancedStringComparer.Equal` | Flow.Launcher/Storage/TopMostRecord.cs:75-120 | the loop with early returns decides exactly `Equivalent`: exact equality when either match fails; otherwise equal group counts plus equal whole matches (one group) or equal groups 1..n-1 |
| `Records.MatchedPartsEqual` | Flow.Launcher/Storage/TopMostRecord.cs:88-113 | after two successful matches, the decision holds iff the group counts agree and the compared parts agree; the compared parts are the whole match when there is only group 0, else the captured groups alone |
| `Records.AdvancedStringComparer.Equivalent` | Flow.Launcher/Storage/TopMostRecord.cs:77-119 | two strings compare equal iff they have the same comparison key: the string itself when the regex does not match it, else its group count and compared parts |
| `Records.EquivalentOnFailedMatch` | Flow.Launcher/Storage/TopMostRecord.cs:115-119 | when either string fails to match, the comparer is exactly string equality |
| `Records.GroupCountMismatchIsUnequal` | Flow.Launcher/Storage/TopMostRecord.cs:88-92 | two matches with different group counts are never equal, whatever they capture |
| `Records.VolatileTextIgnored` | Flow.Launcher/Storage/TopMostRecord.cs:100-113 | two matches with the same captured groups 1..n-1 are equal, even when the whole matches and the surrounding text differ |
| `Records.EquivalentIsEquivalence` | Flow.Launcher/Storage/TopMostRecord.cs:75-119 | under any regex the comparer is reflexive, symmetric and transitive, including across the fallback to exact equality |
| `Records.Record.Equals` | Flow.Launcher/Storage/TopMostRecord.cs:54-63 | true iff the plugin ids are equal and each of title and subtitle agrees: exactly when its regex is null, else when both strings have the same comparison key under that regex; hence a different plugin id always means not equal, with no regexes it is true iff the record holds exactly the result's title, subtitle and plugin id, and a record built from the result always equals it |
| `Storage.TopMostRecord.constructor` | Flow.Launcher/Storage/TopMostRecord.cs:12 | a new store is empty |
| `Storage.TopMostRecord.IsTopMost` | Flow.Launcher/Storage/TopMostRecord.cs:14-24 | true iff the result has an origin query, its raw query has an entry, and that entry `Equals` the result under the result's own title and subtitle regexes (so the empty-store test is only a fast path); false for an empty store, a missing origin query or an absent key; with no regexes, true iff the entry is exactly the result's record |
| `Storage.TopMostDespiteVolatileText` | Flow.Launcher/Storage/TopMostRecord.cs:14-24 | a result is top-most when the entry under its raw query has its plugin id and each field agrees under the result's regex, even if the raw title or subtitle differs outside the captured groups |
| `Storage.TopMostRecord.Remove` | Flow.Launcher/Storage/TopMostRecord.cs:26-29 | deletes the result's raw query and keeps every other key; nothing changes when the key is absent; afterwards the result is not top-most |
| `Storage.TopMostRecord.AddOrUpdate` | Flow.Launcher/Storage/TopMostRecord.cs:31-40 | stores the result's title, subtitle and plugin id under its raw query, replacing any earlier value; every other key keeps its record; afterwards the result is top-most, whatever regexes it carries |
| `Storage.TopMostRecord.Load` | Flow.Launcher/Storage/TopMostRecord.cs:42-45 | the store's mapping becomes the given dictionary, and all earlier entries are discarded |

## Left out

- Flow.Launcher/App.xaml.cs is not part of this model. It is application startup: dependency wiring, settings, plugins, themes, hotkeys, the auto-update timer and shutdown.
- Concurrency: the source uses a `ConcurrentDictionary`. The model is sequential, and each operation is one atomic step.
- The regex engine: pattern syntax, matching semantics, backtracking cost and exceptions from invalid patterns are not modelled. A `Regex` is any function from the input to an optional list of group values.
- JSON serialization (`[JsonInclude]`) and the saving and loading of the file. These happen outside this code.
- Null strings: titles, subtitles, plugin ids and raw queries are never null in the model. In the source, a null title passed to a regex would throw.
- Storage.TopMostRecord.Remove and Storage.TopMostRecord.AddOrUpdate require an origin query. The source dereferences it without a null check, so a missing origin query would throw there.
- Storage.TopMostRecord.Load: a null dictionary, which would throw in the source, is not modelled. The copy the source makes is a value copy here, since maps are values.
- Records.Record.Equals: the default `null` regex arguments are not modelled. Every caller passes both regexes explicitly, as `IsTopMost` does.
- Null records and shared mutable records: the source's dictionaries may hold a null `Record`, on which `IsTopMost` would throw, and its `Record` is a mutable class whose objects `Load` shares with the caller's dictionary. The model's `Record` is an immutable, never-null value, so neither the null case nor later mutation through a shared object is captured.
