/**
 * The object filter: keeps the described objects whose name, in one of two
 * normalised forms, matches a normalised top-level key of the configuration.
 * The configured-object set is recomputed from the keys on every call; the
 * kept objects are returned in their original order and none is changed.
 */
module ObjectFilter {
  import opened Names
  import opened Selection
  import opened Schema

  /** A configuration key as the filter compares it: lower-cased, with every `_` removed. */
  function NormalizeKey(key: string): (k: string)
    ensures '_' !in k && IsLowerCase(k)
  {
    RemoveAllKeepsLowerCase(Lower(key), '_');
    RemoveAll(Lower(key), '_')
  }

  /** The configured-object set: every top-level key, normalised. */
  function ConfiguredObjects(cfg: Config): (keys: set<string>)
    ensures forall key :: key in cfg ==> NormalizeKey(key) in keys
    ensures forall k :: k in keys ==> exists key :: key in cfg && NormalizeKey(key) == k
    ensures forall k :: k in keys ==> '_' !in k && IsLowerCase(k)
  {
    set key | key in cfg.Keys :: NormalizeKey(key)
  }

  /** The decision for one object: either form of its lower-cased name is a configured object. */
  predicate KeepObject(keys: set<string>, name: string) {
    var nameLower := Lower(name);
    nameLower in keys || SansCustomSuffix(nameLower) in keys
  }

  /** The object decision as a function, for `Select`. */
  function KeepsObject(keys: set<string>): DescribedObject -> bool {
    (o: DescribedObject) => KeepObject(keys, o.name)
  }

  /**
   * Filters a list of described objects; an absent list gives an absent
   * result. The result holds only objects of the input that the decision
   * accepts, and is never longer than the input.
   */
  function Filter(cfg: Config, dsrs: Option<seq<DescribedObject>>): (r: Option<seq<DescribedObject>>)
    ensures r.None? <==> dsrs.None?
    ensures r.Some? ==> |r.value| <= |dsrs.value|
    ensures r.Some? ==> forall o :: o in r.value ==> o in dsrs.value && KeepObject(ConfiguredObjects(cfg), o.name)
  {
    match dsrs
    case None => None
    case Some(s) => Some(Select(s, KeepsObject(ConfiguredObjects(cfg))))
  }

  /** An object of the input is in the result exactly when the decision accepts it. */
  lemma FilterKeepsExactlyMatching(cfg: Config, s: seq<DescribedObject>, o: DescribedObject)
    requires o in s
    ensures o in Filter(cfg, Some(s)).value <==> KeepObject(ConfiguredObjects(cfg), o.name)
  {
    var keep := KeepsObject(ConfiguredObjects(cfg));
    if keep(o) {
      SelectComplete(s, keep, o);
    }
  }

  /**
   * The result is the subsequence of the input at the positions whose
   * objects are accepted, in increasing order.
   */
  lemma FilterIsOrderedSubsequence(cfg: Config, s: seq<DescribedObject>)
    ensures var ix, r := KeptIndices(s, KeepsObject(ConfiguredObjects(cfg))), Filter(cfg, Some(s)).value;
      && |ix| == |r|
      && (forall j :: 0 <= j < |ix| ==> ix[j] < |s| && r[j] == s[ix[j]])
      && (forall j, k :: 0 <= j < k < |ix| ==> ix[j] < ix[k])
      && (forall i :: 0 <= i < |s| ==> (KeepObject(ConfiguredObjects(cfg), s[i].name) <==> i in ix))
  {
    SelectIsSubsequence(s, KeepsObject(ConfiguredObjects(cfg)));
  }

  /** Filtering the result of a filter again returns it unchanged. */
  lemma FilterIdempotent(cfg: Config, dsrs: Option<seq<DescribedObject>>)
    ensures Filter(cfg, Filter(cfg, dsrs)) == Filter(cfg, dsrs)
  {
    if dsrs.Some? {
      SelectIdempotent(dsrs.value, KeepsObject(ConfiguredObjects(cfg)));
    }
  }

  /** Names that differ only in letter case get the same decision. */
  lemma KeepObjectIgnoresCase(keys: set<string>, a: string, b: string)
    requires SameUpToCase(a, b)
    ensures KeepObject(keys, a) == KeepObject(keys, b)
  {
    LowerUpToCase(a, b);
  }

  /** The reserved global key `_` puts the empty name into the configured-object set. */
  lemma WildcardKeyGivesEmptyName(cfg: Config)
    requires Wildcard in cfg
    ensures "" in ConfiguredObjects(cfg)
  {
    assert Lower(Wildcard) == Wildcard;
    assert NormalizeKey(Wildcard) == "";
  }

  /**
   * An object is accepted only through some configuration key: one whose
   * normalised form is the object's lower-cased name or its second form.
   */
  lemma KeepObjectNeedsKey(cfg: Config, name: string)
    requires KeepObject(ConfiguredObjects(cfg), name)
    ensures exists key :: key in cfg && (NormalizeKey(key) == Lower(name) || NormalizeKey(key) == SansCustomSuffix(Lower(name)))
  {
  }

  /**
   * A custom object `X__c` (in any letter case) is selected by a key that
   * spells `X` without `_`, in any letter case.
   */
  lemma CustomObjectMatchesBaseKey(cfg: Config, name: string, key: string)
    requires key in cfg && '_' !in key
    requires Lower(name) == Lower(key) + "__c"
    ensures KeepObject(ConfiguredObjects(cfg), name)
  {
    var base := Lower(key);
    assert '_' !in base by {
      forall i | 0 <= i < |base|
        ensures base[i] != '_'
      {
        assert base[i] == LowerChar(key[i]) && key[i] != '_';
      }
    }
    assert NormalizeKey(key) == base;
    assert StripSuffix(base + "__c", "__c") == base;
    assert SansCustomSuffix(Lower(name)) == base;
  }

  /**
   * A key spelled exactly as a custom object's API name (one ending in
   * `__c`) normalises to neither form of that name: the key keeps the `c`
   * of the suffix, while the first form keeps its `_` and the second loses
   * the whole suffix. So a configuration whose only key is that name does
   * not select the object.
   */
  lemma ExactCustomKeyMisses(cfg: Config, name: string)
    requires EndsWith(Lower(name), "__c")
    requires cfg.Keys == {name}
    ensures NormalizeKey(name) == SansCustomSuffix(Lower(name)) + "c"
    ensures !KeepObject(ConfiguredObjects(cfg), name)
  {
    var lower := Lower(name);
    var base := StripSuffix(lower, "__c");
    assert lower == base + "__c";
    RemoveAllAppend(base, "__c", '_');
    assert RemoveAll("__c", '_') == "c";
    assert lower[|lower| - 1 - 1] == '_';
    forall k | k in ConfiguredObjects(cfg)
      ensures k == NormalizeKey(name)
    {
      var key :| key in cfg && NormalizeKey(key) == k;
    }
  }
}
