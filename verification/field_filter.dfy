/**
 * The field filter. At construction it splits the global pattern list (the
 * configuration key `_`) into include and exclude patterns. For each object
 * it resolves the object's own pattern list, parses it into the include-all
 * flag and local include and exclude patterns, merges these with the global
 * ones, and walks the object's fields once: every combobox field is
 * rewritten in place to a picklist, and the fields the decision accepts are
 * copied, in order, into the result.
 */
module FieldFilter {
  import opened Names
  import opened Selection
  import opened Schema

  /** The patterns that decide one object's fields. */
  datatype Patterns = Patterns(includeAll: bool, includes: set<string>, excludes: set<string>)

  /** A lower-cased list entry that starts with `~` is an exclusion. */
  predicate IsExclusion(entry: string) {
    |entry| > 0 && entry[0] == '~'
  }

  /** An exclusion with its one leading `~` removed. */
  function Unnegate(entry: string): (p: string)
    requires IsExclusion(entry)
    ensures "~" + p == entry
  {
    entry[1..]
  }

  /** The entries of a pattern list, each lower-cased. */
  function Lowered(list: seq<string>): (r: seq<string>)
    ensures |r| == |list|
    ensures forall i :: 0 <= i < |list| ==> r[i] == Lower(list[i])
  {
    seq(|list|, i requires 0 <= i < |list| => Lower(list[i]))
  }

  /** The lower-cased entries that are not exclusions. */
  function NamePatterns(list: seq<string>): (r: set<string>)
    ensures forall p :: p in r ==> IsLowerCase(p) && !IsExclusion(p)
  {
    set p | p in Lowered(list) && !IsExclusion(p)
  }

  /** The lower-cased exclusions, each without its leading `~`. */
  function ExcludePatterns(list: seq<string>): (r: set<string>)
    ensures forall p :: p in r ==> IsLowerCase(p)
    ensures forall p :: p in r ==> "~" + p in Lowered(list)
  {
    set p | p in Lowered(list) && IsExclusion(p) :: Unnegate(p)
  }

  /** True when some entry, lower-cased, is the include-all entry `_`. */
  predicate IncludeAll(list: seq<string>) {
    Wildcard in Lowered(list)
  }

  /** A configuration value, with an absent key read as the empty list. */
  function Get(cfg: Config, key: string): seq<string> {
    if key in cfg then cfg[key] else []
  }

  /**
   * The object's pattern list: the value under its exact name when that key
   * exists, otherwise the value under the name (not lower-cased) without its
   * custom-object suffix and its `_`, otherwise nothing.
   */
  function ResolvePatterns(cfg: Config, name: string): (list: seq<string>)
    ensures name in cfg ==> list == cfg[name]
    ensures name !in cfg && SansCustomSuffix(name) in cfg ==> list == cfg[SansCustomSuffix(name)]
    ensures name !in cfg && SansCustomSuffix(name) !in cfg ==> list == []
  {
    if name in cfg then cfg[name] else Get(cfg, SansCustomSuffix(name))
  }

  /**
   * The object's own patterns merged with the global include and exclude
   * patterns. Include-all comes from the object's list alone, where it is an
   * entry `_` exactly; the local `_` is not an inclusion.
   */
  function EffectivePatterns(list: seq<string>, globalIncludes: set<string>, globalExcludes: set<string>): (p: Patterns)
    ensures p.includeAll <==> Wildcard in list
    ensures globalIncludes <= p.includes && globalExcludes <= p.excludes
    ensures NamePatterns(list) - {Wildcard} <= p.includes && ExcludePatterns(list) <= p.excludes
    ensures forall x :: x in p.includes ==> x in globalIncludes || (x in NamePatterns(list) && x != Wildcard)
    ensures forall x :: x in p.excludes ==> x in globalExcludes || x in ExcludePatterns(list)
    ensures Wildcard in p.includes ==> Wildcard in globalIncludes
  {
    IncludeAllIsExactEntry(list);
    Patterns(IncludeAll(list), (NamePatterns(list) - {Wildcard}) + globalIncludes, ExcludePatterns(list) + globalExcludes)
  }

  /**
   * The decision for one field, on two forms of its name: the lower-cased
   * name and that name without a trailing `id`. With include-all, a field is
   * kept unless a form is excluded; otherwise only if a form is included.
   */
  predicate KeepField(name: string, p: Patterns) {
    var nameLower := Lower(name);
    var sansId := StripSuffix(nameLower, "id");
    if p.includeAll then nameLower !in p.excludes && sansId !in p.excludes
    else nameLower in p.includes || sansId in p.includes
  }

  /** The field decision as a function, for `Select`. */
  function KeepsField(p: Patterns): Field -> bool {
    (f: Field) => KeepField(f.name, p)
  }

  /** The type a field has after the filter has seen it. */
  function Normalized(t: FieldType): (u: FieldType)
    ensures u != Combobox
    ensures t == Combobox ==> u == Picklist
    ensures t != Combobox ==> u == t
  {
    if t == Combobox then Picklist else t
  }

  /** The fields the filter returns for an object, given the global patterns. */
  function FilteredFields(cfg: Config, globalIncludes: set<string>, globalExcludes: set<string>, o: DescribedObject): (r: seq<Field>)
    ensures ResolvePatterns(cfg, o.name) == [] ==> r == []
    ensures |r| <= |o.fields|
    ensures forall f :: f in r ==> f in o.fields
  {
    var list := ResolvePatterns(cfg, o.name);
    if list == [] then []
    else Select(o.fields, KeepsField(EffectivePatterns(list, globalIncludes, globalExcludes)))
  }

  /** The fields whose type the filter may rewrite. */
  function FieldsOf(dsr: Option<DescribedObject>): set<Field> {
    if dsr.None? then {} else set f | f in dsr.value.fields
  }

  /** Extending the examined prefix by one field extends the selection by the decision on it. */
  lemma KeptAfter(fields: seq<Field>, i: nat, p: Patterns)
    requires i < |fields|
    ensures Select(fields[..i + 1], KeepsField(p)) ==
      Select(fields[..i], KeepsField(p)) + (if KeepField(fields[i].name, p) then [fields[i]] else [])
  {
    assert fields[..i + 1] == fields[..i] + [fields[i]];
    SelectSnoc(fields[..i], fields[i], KeepsField(p));
  }

  /**
   * Walks the fields once, in order: a combobox field has its type rewritten
   * to picklist, and a field the decision accepts is appended to the result.
   */
  method SelectFields(fields: seq<Field>, p: Patterns) returns (kept: seq<Field>)
    modifies set f | f in fields
    ensures kept == Select(fields, KeepsField(p))
    ensures forall f :: f in fields ==> f.fieldType == Normalized(old(f.fieldType))
  {
    kept := [];
    var i := 0;
    ghost var visited: set<Field> := {};
    while i < |fields|
      invariant 0 <= i <= |fields|
      invariant kept == Select(fields[..i], KeepsField(p))
      invariant forall j :: 0 <= j < i ==> fields[j] in visited
      invariant forall f :: f in fields ==>
        f.fieldType == if f in visited then Normalized(old(f.fieldType)) else old(f.fieldType)
    {
      var field := fields[i];
      KeptAfter(fields, i, p);
      if field.fieldType == Combobox {
        field.fieldType := Picklist;
      }
      visited := visited + {field};
      if KeepField(field.name, p) {
        kept := kept + [field];
      }
      i := i + 1;
    }
    assert fields[..i] == fields;
  }

  /** Lower-casing one more entry extends the lowered list by that entry. */
  lemma LoweredSnoc(list: seq<string>, i: nat)
    requires i < |list|
    ensures Lowered(list[..i + 1]) == Lowered(list[..i]) + [Lower(list[i])]
  {
  }

  /**
   * Parses an object's pattern list: the include-all flag is set by an entry
   * `_`, an entry starting with `~` becomes an exclusion without that `~`,
   * and every other entry an inclusion; all entries are lower-cased.
   */
  method ParsePatternList(list: seq<string>) returns (includeAll: bool, includes: set<string>, excludes: set<string>)
    ensures includeAll == IncludeAll(list)
    ensures includes == NamePatterns(list) - {Wildcard}
    ensures excludes == ExcludePatterns(list)
  {
    includeAll, includes, excludes := false, {}, {};
    var i := 0;
    while i < |list|
      invariant 0 <= i <= |list|
      invariant includeAll == IncludeAll(list[..i])
      invariant includes == NamePatterns(list[..i]) - {Wildcard}
      invariant excludes == ExcludePatterns(list[..i])
    {
      var s := Lower(list[i]);
      LoweredSnoc(list, i);
      if s == Wildcard {
        includeAll := true;
      } else if IsExclusion(s) {
        excludes := excludes + {Unnegate(s)};
      } else {
        includes := includes + {s};
      }
      i := i + 1;
    }
    assert list[..i] == list;
  }

  /** Lower-casing yields `_` only from `_` itself: the include-all entry is matched exactly. */
  lemma IncludeAllIsExactEntry(list: seq<string>)
    ensures IncludeAll(list) <==> Wildcard in list
  {
    if IncludeAll(list) {
      var i :| 0 <= i < |list| && Lowered(list)[i] == Wildcard;
      var s := list[i];
      assert |s| == 1 && LowerChar(s[0]) == '_';
      assert s == [s[0]];
    }
    if Wildcard in list {
      var i :| 0 <= i < |list| && list[i] == Wildcard;
      assert Lowered(list)[i] == Lower(Wildcard) == Wildcard;
    }
  }

  /**
   * Every entry of a list lands in exactly one place: one starting with `~`
   * among the exclusions, without that `~`; any other among the name
   * patterns; both lower-cased.
   */
  lemma EntryPlacement(list: seq<string>, s: string)
    requires s in list
    ensures IsExclusion(s) ==> Lower(s)[1..] in ExcludePatterns(list)
    ensures !IsExclusion(s) ==> Lower(s) in NamePatterns(list)
  {
    var i :| 0 <= i < |list| && list[i] == s;
    var entry := Lowered(list)[i];
    assert entry == Lower(s) && entry in Lowered(list);
    if IsExclusion(s) {
      assert entry[0] == LowerChar(s[0]) == '~';
      assert Unnegate(entry) in ExcludePatterns(list);
    } else if |s| > 0 {
      assert entry[0] == LowerChar(s[0]) != '~';
    }
  }

  /**
   * With include-all, a field is kept exactly when its lower-cased name is
   * not an exclusion and is not an exclusion followed by `id`.
   */
  lemma KeepFieldWithIncludeAll(name: string, p: Patterns)
    requires p.includeAll
    ensures KeepField(name, p) <==>
      Lower(name) !in p.excludes && forall x :: x in p.excludes ==> Lower(name) != x + "id"
  {
    var nameLower := Lower(name);
    forall x | x in p.excludes
      ensures StripSuffix(nameLower, "id") == x <==> nameLower == x + "id" || (nameLower == x && !EndsWith(nameLower, "id"))
    {
      StripSuffixIs(nameLower, "id", x);
    }
  }

  /**
   * Without include-all, a field is kept exactly when its lower-cased name
   * is an inclusion or is an inclusion followed by `id`.
   */
  lemma KeepFieldWithoutIncludeAll(name: string, p: Patterns)
    requires !p.includeAll
    ensures KeepField(name, p) <==>
      Lower(name) in p.includes || exists x :: x in p.includes && Lower(name) == x + "id"
  {
    var nameLower := Lower(name);
    var sansId := StripSuffix(nameLower, "id");
    StripSuffixIs(nameLower, "id", sansId);
    forall x | x in p.includes && nameLower == x + "id"
      ensures sansId == x
    {
      StripSuffixIs(nameLower, "id", x);
    }
  }

  /**
   * Exclusion is by equality, not by prefix: with include-all, a pattern
   * that is a proper prefix of a field's lower-cased name (and is not that
   * name minus `id`) does not exclude the field.
   */
  lemma PrefixPatternDoesNotExclude(name: string, p: Patterns, x: string)
    requires p.includeAll && p.excludes == {x}
    requires |x| < |Lower(name)| && Lower(name)[..|x|] == x && Lower(name) != x + "id"
    ensures KeepField(name, p)
  {
    KeepFieldWithIncludeAll(name, p);
  }

  /** Without include-all the exclusions, local or global, have no effect. */
  lemma ExclusionsUnusedWithoutIncludeAll(name: string, includes: set<string>, excludes1: set<string>, excludes2: set<string>)
    ensures KeepField(name, Patterns(false, includes, excludes1)) == KeepField(name, Patterns(false, includes, excludes2))
  {
  }

  /** Field names that differ only in letter case get the same decision. */
  lemma KeepFieldIgnoresCase(a: string, b: string, p: Patterns)
    requires SameUpToCase(a, b)
    ensures KeepField(a, p) == KeepField(b, p)
  {
    LowerUpToCase(a, b);
  }

  /**
   * An object name with no `_` that is not itself a key has no pattern list:
   * the fallback key is then the name itself, so it yields no fields. This
   * holds under the model's reading of an absent fallback key as the empty
   * list; the configuration library itself raises an exception there.
   */
  lemma UnconfiguredNameYieldsNothing(cfg: Config, gi: set<string>, ge: set<string>, o: DescribedObject)
    requires '_' !in o.name && o.name !in cfg
    ensures ResolvePatterns(cfg, o.name) == []
    ensures FilteredFields(cfg, gi, ge, o) == []
  {
    assert SansCustomSuffix(o.name) == o.name;
  }

  /**
   * A field of the object is in the result exactly when the object's pattern
   * list is not empty and the decision, on the merged patterns, keeps it.
   */
  lemma FilteredFieldsExact(cfg: Config, gi: set<string>, ge: set<string>, o: DescribedObject, f: Field)
    requires f in o.fields
    ensures var list := ResolvePatterns(cfg, o.name);
      f in FilteredFields(cfg, gi, ge, o) <==> list != [] && KeepField(f.name, EffectivePatterns(list, gi, ge))
  {
    var list := ResolvePatterns(cfg, o.name);
    if list != [] && KeepField(f.name, EffectivePatterns(list, gi, ge)) {
      SelectComplete(o.fields, KeepsField(EffectivePatterns(list, gi, ge)), f);
    }
  }

  /**
   * With a non-empty pattern list the result is the subsequence of the
   * object's fields at the positions the decision accepts, in order.
   */
  lemma FilteredFieldsOrdered(cfg: Config, gi: set<string>, ge: set<string>, o: DescribedObject)
    requires ResolvePatterns(cfg, o.name) != []
    ensures var p := EffectivePatterns(ResolvePatterns(cfg, o.name), gi, ge);
      var ix, r := KeptIndices(o.fields, KeepsField(p)), FilteredFields(cfg, gi, ge, o);
      && |ix| == |r|
      && (forall j :: 0 <= j < |ix| ==> ix[j] < |o.fields| && r[j] == o.fields[ix[j]])
      && (forall j, k :: 0 <= j < k < |ix| ==> ix[j] < ix[k])
      && (forall i :: 0 <= i < |o.fields| ==> (KeepField(o.fields[i].name, p) <==> i in ix))
  {
    var p := EffectivePatterns(ResolvePatterns(cfg, o.name), gi, ge);
    SelectIsSubsequence(o.fields, KeepsField(p));
  }

  class ConfigFieldFilter {
    const config: Config
    var globalIncludeFields: set<string>
    var globalExcludeFields: set<string>

    /** The global patterns are those of the configuration's `_` list. */
    ghost predicate Valid()
      reads this
    {
      && globalIncludeFields == NamePatterns(Get(config, Wildcard))
      && globalExcludeFields == ExcludePatterns(Get(config, Wildcard))
    }

    /**
     * Splits the global list: each entry lower-cased, an entry starting with
     * `~` an exclusion without that `~`, every other entry (`_` included) an
     * inclusion. With no `_` key both sets are empty.
     */
    constructor (config: Config)
      ensures this.config == config && Valid()
    {
      this.config := config;
      globalIncludeFields := {};
      globalExcludeFields := {};
      new;
      if Wildcard in config {
        var list := config[Wildcard];
        var i := 0;
        while i < |list|
          invariant 0 <= i <= |list|
          invariant globalIncludeFields == NamePatterns(list[..i])
          invariant globalExcludeFields == ExcludePatterns(list[..i])
        {
          var s := Lower(list[i]);
          LoweredSnoc(list, i);
          if IsExclusion(s) {
            globalExcludeFields := globalExcludeFields + {Unnegate(s)};
          } else {
            globalIncludeFields := globalIncludeFields + {s};
          }
          i := i + 1;
        }
        assert list[..i] == list;
      }
    }

    /**
     * Filters the fields of one object. An absent object gives an absent
     * result. An object whose pattern list is empty gives no fields and its
     * fields are left as they were. Otherwise the result is the object's
     * fields that the decision keeps, in order, and every combobox field of
     * the object, kept or not, now has the picklist type.
     */
    method Filter(dsr: Option<DescribedObject>) returns (r: Option<seq<Field>>)
      requires Valid()
      modifies FieldsOf(dsr)
      ensures dsr.None? ==> r.None?
      ensures dsr.Some? ==> r == Some(FilteredFields(config, globalIncludeFields, globalExcludeFields, dsr.value))
      ensures dsr.Some? && ResolvePatterns(config, dsr.value.name) == [] ==>
        forall f :: f in dsr.value.fields ==> f.fieldType == old(f.fieldType)
      ensures dsr.Some? && ResolvePatterns(config, dsr.value.name) != [] ==>
        forall f :: f in dsr.value.fields ==> f.fieldType == Normalized(old(f.fieldType))
    {
      if dsr.None? {
        return None;
      }
      var o := dsr.value;
      var list: seq<string>;
      if o.name in config {
        list := config[o.name];
      } else {
        list := Get(config, SansCustomSuffix(o.name));
      }
      if list == [] {
        return Some([]);
      }
      var includeAll, includes, excludes := ParsePatternList(list);
      var p := Patterns(includeAll, includes + globalIncludeFields, excludes + globalExcludeFields);
      assert p == EffectivePatterns(list, globalIncludeFields, globalExcludeFields);

      var kept := SelectFields(o.fields, p);
      r := Some(kept);
    }
  }
}
