# Configuration-driven object and field filters

This project models the two name-matching filters of a Maven code-generation
plugin. They sit between a parsed configuration file and the code generator.

- `ConfigObjectFilter` keeps the described schema objects that the
  configuration names. The configuration's top-level keys are lower-cased and
  stripped of every `_`. An object is kept when one of two forms of its name
  is among those keys: its lower-cased name, or its lower-cased name without
  a trailing `__c` and without any `_`. The kept objects stay in input order.
- `ConfigFieldFilter` keeps fields of one object. At construction it splits
  the global list under the key `_` into include patterns and exclude
  patterns; `~name` marks an exclude. For each object it resolves the
  object's own list. It tries the exact name first, then the name without a
  trailing `__c` and without any `_`. It parses that list into an
  include-all flag (entry `_`) and local includes and excludes, and merges
  them with the global sets. It then walks the fields once, in order. Each
  `combobox` field is rewritten in place to `picklist`, whether or not it is
  kept. A field is kept on two forms of its name: the lower-cased name, and
  that name without a trailing `id`. With include-all, the field is kept
  unless a form is excluded. Without it, the field is kept only if a form is
  included.

Modules:

- `Names` (names.dfy): ASCII lower-casing, removal of every occurrence of a
  character, and removal of one trailing suffix.
- `Selection` (selection.dfy): the order-preserving selection that both
  filters compute, and its characterisation as a subsequence.
- `Schema` (schema.dfy): the configuration, described objects, and fields.
  `Field` is a class because the filter rewrites a field's type in place.
- `ObjectFilter` (object_filter.dfy): the object filter, as pure functions.
- `FieldFilter` (field_filter.dfy): the field filter. Class
  `ConfigFieldFilter` has a constructor loop that fills the global pattern
  sets, and a `Filter` method. `Filter` parses the list with a loop
  (`ParsePatternList`) and walks the fields with another (`SelectFields`).
  Both loops are proved against the specification functions.

Matching is exact set membership, not prefix matching. An exclude pattern
`system` does not exclude a field `SystemModstamp`
(`PrefixPatternDoesNotExclude`). Two more consequences of the code are
proved as they are.
First, without include-all, exclude patterns have no effect. Second, a key
spelled exactly as a custom object's API name, such as `Custom__c`,
normalises to `customc` and does not select that object
(`ExactCustomKeyMisses`).

## Model

| member | source | states |
|---|---|---|
| `Names.Lower` | src/main/java/com/force/ConfigObjectFilter.java:40 | the lower-cased name has the same length, no upper-case letter, and each character is the ASCII lower case of the original one |
| `Names.LowerUpToCase` | src/main/java/com/force/ConfigObjectFilter.java:40-41 | names that differ only in letter case have the same lower-cased form |
| `Names.RemoveAll` | src/main/java/com/force/ConfigObjectFilter.java:33 | removing `_` leaves no `_`, and a name without `_` is unchanged |
| `Names.RemoveAllCounts` | src/main/java/com/force/ConfigObjectFilter.java:33 | only the removed character disappears: every other character keeps its count |
| `Names.RemoveAllAppend` | src/main/java/com/force/ConfigObjectFilter.java:41 | removing a character from a concatenation removes it from each part |
| `Names.StripSuffix` | src/main/java/com/force/ConfigFieldFilter.java:103 | one trailing occurrence is removed when present (result plus suffix is the input), otherwise the name is unchanged |
| `Names.StripSuffixIs` | src/main/java/com/force/ConfigFieldFilter.java:103 | stripping gives `x` exactly when the name is `x` plus the suffix, or is `x` itself and does not end with the suffix |
| `Selection.Select` | src/main/java/com/force/ConfigObjectFilter.java:37-52 | the selection is no longer than the input and holds only input elements that the decision accepts |
| `Selection.SelectIsSubsequence` | src/main/java/com/force/ConfigFieldFilter.java:99-117 | the selection is the input at strictly increasing positions, exactly the positions whose element is accepted |
| `Selection.SelectComplete` | src/main/java/com/force/ConfigObjectFilter.java:37-52 | every accepted input element appears in the selection |
| `Selection.SelectIdempotent` | src/main/java/com/force/ConfigObjectFilter.java:37-52 | selecting again from a selection changes nothing |
| `ObjectFilter.NormalizeKey` | src/main/java/com/force/ConfigObjectFilter.java:33 | a normalised key has no `_` and no upper-case letter |
| `Names.SansCustomSuffix` | src/main/java/com/force/ConfigObjectFilter.java:41 | a name without its trailing `__c` and without `_` contains no `_` |
| `ObjectFilter.ConfiguredObjects` | src/main/java/com/force/ConfigObjectFilter.java:30-35 | the set is exactly the normalised top-level keys (each key contributes its normal form, and each member comes from some key), and every member is lower-case without `_` |
| `ObjectFilter.WildcardKeyGivesEmptyName` | src/main/java/com/force/ConfigObjectFilter.java:30-35 | the reserved key `_` contributes the empty name |
| `ObjectFilter.KeepObject` | src/main/java/com/force/ConfigObjectFilter.java:40-42 | definition of the decision: the lower-cased name, or that name without a trailing `__c` and without `_`, is a configured object; characterised by `FilterKeepsExactlyMatching`, `KeepObjectIgnoresCase` and `KeepObjectNeedsKey` |
| `ObjectFilter.Filter` | src/main/java/com/force/ConfigObjectFilter.java:27-53 | an absent list gives an absent result; otherwise the result is no longer than the input and holds only input objects the decision accepts |
| `ObjectFilter.FilterKeepsExactlyMatching` | src/main/java/com/force/ConfigObjectFilter.java:40-42 | an input object is in the result iff its lower-cased name or its second form is a configured object |
| `ObjectFilter.FilterIsOrderedSubsequence` | src/main/java/com/force/ConfigObjectFilter.java:37-52 | the result is the input at strictly increasing positions, exactly those whose object is accepted |
| `ObjectFilter.FilterIdempotent` | src/main/java/com/force/ConfigObjectFilter.java:37-52 | filtering the output again returns the same result |
| `ObjectFilter.KeepObjectIgnoresCase` | src/main/java/com/force/ConfigObjectFilter.java:40-41 | names that differ only in letter case get the same decision |
| `ObjectFilter.KeepObjectNeedsKey` | src/main/java/com/force/ConfigObjectFilter.java:42 | an accepted object has a configuration key whose normal form equals one of the object's two name forms |
| `ObjectFilter.CustomObjectMatchesBaseKey` | src/main/java/com/force/ConfigObjectFilter.java:41-42 | a key spelling `X` without `_`, in any case, selects the custom object `X__c` |
| `ObjectFilter.ExactCustomKeyMisses` | src/main/java/com/force/ConfigObjectFilter.java:30-42 | a key equal to a custom object's API name normalises to its second form plus `c`, so it alone does not select the object |
| `FieldFilter.Unnegate` | src/main/java/com/force/ConfigFieldFilter.java:81 | exactly one leading `~` is removed |
| `FieldFilter.ResolvePatterns` | src/main/java/com/force/ConfigFieldFilter.java:58-62 | the exact name's list when that key exists, else the fallback key's list, else the empty list |
| `FieldFilter.UnconfiguredNameYieldsNothing` | src/main/java/com/force/ConfigFieldFilter.java:59-66 | a name without `_` that is not a key (lookup is case-sensitive) resolves to the empty list and yields no fields |
| `FieldFilter.Normalized` | src/main/java/com/force/ConfigFieldFilter.java:105-107 | combobox becomes picklist, every other type is unchanged, so no type is combobox afterwards |
| `FieldFilter.NamePatterns` | src/main/java/com/force/ConfigFieldFilter.java:34-41 | every entry that is not an exclusion, lower-cased; each member is lower-case and does not start with `~` |
| `FieldFilter.ExcludePatterns` | src/main/java/com/force/ConfigFieldFilter.java:76-86 | every exclusion, lower-cased and without its `~`; each member is lower-case and, with `~` put back, is a lower-cased entry of the list |
| `FieldFilter.IncludeAll` | src/main/java/com/force/ConfigFieldFilter.java:76-79 | definition of the include-all flag: some lower-cased entry is `_`; characterised by `IncludeAllIsExactEntry` |
| `FieldFilter.EffectivePatterns` | src/main/java/com/force/ConfigFieldFilter.java:94-95 | the merged patterns: include-all iff the object's list has an entry `_`, the merged includes are exactly the local includes (without `_`) together with the global includes, the merged excludes exactly the local and global excludes (both directions), and `_` is an include only when it is a global include |
| `FieldFilter.KeepField` | src/main/java/com/force/ConfigFieldFilter.java:102-113 | definition of the field decision on the lower-cased name and that name without a trailing `id`; characterised by `KeepFieldWithIncludeAll` and `KeepFieldWithoutIncludeAll` |
| `FieldFilter.FilteredFields` | src/main/java/com/force/ConfigFieldFilter.java:58-117 | the fields returned for an object: none when its list is empty, otherwise fields of the object only and never more than it has; made exact by `FilteredFieldsExact` and `FilteredFieldsOrdered` |
| `FieldFilter.EntryPlacement` | src/main/java/com/force/ConfigFieldFilter.java:34-41 | each entry, lower-cased, goes to the excludes without its `~` when it starts with `~`, and to the includes otherwise (`_` included) |
| `FieldFilter.IncludeAllIsExactEntry` | src/main/java/com/force/ConfigFieldFilter.java:77-79 | include-all holds iff some entry is exactly `_` |
| `FieldFilter.ParsePatternList` | src/main/java/com/force/ConfigFieldFilter.java:71-86 | the loop yields the include-all flag, the lower-cased non-exclude entries other than `_`, and the exclude entries without `~` |
| `FieldFilter.KeepFieldWithIncludeAll` | src/main/java/com/force/ConfigFieldFilter.java:102-110 | with include-all, a field is kept iff its lower-cased name is neither an exclude nor an exclude followed by `id` |
| `FieldFilter.KeepFieldWithoutIncludeAll` | src/main/java/com/force/ConfigFieldFilter.java:111-112 | without include-all, a field is kept iff its lower-cased name is an include or an include followed by `id` |
| `FieldFilter.ExclusionsUnusedWithoutIncludeAll` | src/main/java/com/force/ConfigFieldFilter.java:109-113 | without include-all, changing the excludes never changes the decision |
| `FieldFilter.PrefixPatternDoesNotExclude` | src/main/java/com/force/ConfigFieldFilter.java:110 | an exclude that is only a proper prefix of the lower-cased name (and not the name minus `id`) does not exclude the field |
| `FieldFilter.KeepFieldIgnoresCase` | src/main/java/com/force/ConfigFieldFilter.java:102-103 | field names that differ only in letter case get the same decision |
| `FieldFilter.SelectFields` | src/main/java/com/force/ConfigFieldFilter.java:99-117 | one pass in order: the result is the selection of the accepted fields, and every field's type becomes its normalised type |
| `FieldFilter.FilteredFieldsExact` | src/main/java/com/force/ConfigFieldFilter.java:94-117 | a field of the object is returned iff the object's list is non-empty and the decision on the merged patterns keeps it |
| `FieldFilter.FilteredFieldsOrdered` | src/main/java/com/force/ConfigFieldFilter.java:99-117 | with a non-empty list the result is the object's fields at strictly increasing positions, exactly those the decision accepts |
| `FieldFilter.ConfigFieldFilter.constructor` | src/main/java/com/force/ConfigFieldFilter.java:27-52 | the global include and exclude sets are those of the `_` list, and both are empty when the key is absent |
| `FieldFilter.ConfigFieldFilter.Filter` | src/main/java/com/force/ConfigFieldFilter.java:55-118 | absent object gives absent result; an empty list gives no fields and changes no type; otherwise the accepted fields in order, with every combobox field rewritten to picklist, kept or not |

## Left out

- Logging and message building are diagnostics only: the `Log` calls and the `StringUtils.join` output.
- The configuration library is reduced to a map from key to string list, so path expressions are not modelled. A dotted key, for example, is one key here, not a path.
- A value that is a nested object rather than a list is not modelled.
- ResolvePatterns: the configuration library raises an exception when the fallback key at ConfigFieldFilter.java:62 is absent. The model reads the absent key as the empty list, which leads to the no-fields branch.
- Lower: ASCII-only lower-casing; the locale- and Unicode-aware `toLowerCase` of the runtime is not modelled.
- StripSuffix: plain suffix removal. A regular expression's `$` can also match before a final line terminator; that case is not modelled.
- Guava's lazy views are modelled as strict loops, sets and sequence functions: `Iterables.filter`, `Collections2.transform` and `Sets.union`. `Lists.newArrayList` forces each filter view in one pass, testing each element once. The transform and union views are only asked `contains`; their functions are pure, so the answer is the same as membership in the strict set the model builds.
- The `AtomicBoolean` is a local flag here. It only lets the closure capture a mutable value.
- The SOAP classes are reduced to a record and a small class. The field type is `Combobox`, `Picklist` or another type carried by name.
- Null names, null field lists and null configuration values are not modelled.
- The unused `new Field()` at ConfigFieldFilter.java:97 is not modelled.
- The object filter's constructor only stores the configuration and the log. The configuration is passed to `ObjectFilter.Filter` directly.
- Concurrent use is not modelled.
