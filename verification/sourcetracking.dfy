/**
 * The ListChanges and RetrieveChanges tasks: which changed source members of
 * a scratch org are listed or retrieved, and how they are grouped by
 * metadata type for the retrieve request.
 *
 * The Tooling API query, the reading of `package.xml`, the XML rendering and
 * the retrieve call itself are not part of this model; regular-expression
 * search is a parameter `search`, with `search(p, s)` standing for
 * `re.search(p, s) is not None`. Every property below holds for any `search`.
 */
module SourceTracking {
  import opened Wrappers
  import opened OrderedMaps

  /** One SourceMember record of the Tooling API query result. */
  datatype Change = Change(memberType: string, memberName: string)

  /** `re.search(pattern, text) is not None`, left uninterpreted. */
  type Search = (string, string) -> bool

  /** The `"MemberType: MemberName"` string that the patterns are searched in. */
  function FullName(c: Change): string {
    c.memberType + ": " + c.memberName
  }

  /** `any(re.search(p, text) for p in patterns)`. */
  predicate AnyMatch(patterns: seq<string>, text: string, search: Search) {
    exists p :: p in patterns && search(p, text)
  }

  /**
   * Whether `_filter_changes` keeps a record: an empty include list lets
   * everything through the first test, and no exclude pattern may match.
   */
  predicate Keep(includes: seq<string>, exclude: seq<string>, search: Search, c: Change) {
    (includes == [] || AnyMatch(includes, FullName(c), search))
    && !AnyMatch(exclude, FullName(c), search)
  }

  // ---------------------------------------------------------------------
  // The exclude list built by ListChanges._init_options
  // ---------------------------------------------------------------------

  function CustomFieldPattern(namespace: string): string {
    "CustomField: .*\\." + namespace + "__.*__c"
  }

  function CompactLayoutPattern(namespace: string): string {
    "CompactLayout: .*\\." + namespace + "__.*__c"
  }

  /** The two patterns appended for each excluded namespace, in order. */
  function NamespacePatterns(namespaces: seq<string>): seq<string> {
    if namespaces == [] then []
    else
      var last := namespaces[|namespaces| - 1];
      NamespacePatterns(namespaces[..|namespaces| - 1])
        + [CustomFieldPattern(last), CompactLayoutPattern(last)]
  }

  /** The whole exclude list: the user's patterns, the namespace patterns, the project's source-ignore list. */
  function ExcludePatterns(userExclude: seq<string>, namespaces: seq<string>, sourceIgnore: seq<string>): seq<string> {
    userExclude + NamespacePatterns(namespaces) + sourceIgnore
  }

  /** Namespace `i` contributes the patterns at `2i` and `2i + 1`, custom field first. */
  lemma {:induction false} NamespacePatternsAt(namespaces: seq<string>)
    ensures |NamespacePatterns(namespaces)| == 2 * |namespaces|
    ensures forall i :: 0 <= i < |namespaces| ==>
      NamespacePatterns(namespaces)[2 * i] == CustomFieldPattern(namespaces[i])
      && NamespacePatterns(namespaces)[2 * i + 1] == CompactLayoutPattern(namespaces[i])
  {
    if namespaces != [] {
      var init := namespaces[..|namespaces| - 1];
      NamespacePatternsAt(init);
      forall i | 0 <= i < |namespaces|
        ensures NamespacePatterns(namespaces)[2 * i] == CustomFieldPattern(namespaces[i])
        ensures NamespacePatterns(namespaces)[2 * i + 1] == CompactLayoutPattern(namespaces[i])
      {
        if i < |init| {
          assert namespaces[i] == init[i];
        }
      }
    }
  }

  /** A Python list object, shared by reference. */
  class PatternList {
    var items: seq<string>

    constructor (items: seq<string>)
      ensures this.items == items
    {
      this.items := items;
    }

    /** `list.append`. */
    method Append(p: string)
      modifies this
      ensures items == old(items) + [p]
    {
      items := items + [p];
    }

    /** `list.extend`. */
    method Extend(ps: seq<string>)
      modifies this
      ensures items == old(items) + ps
    {
      items := items + ps;
    }
  }

  // ---------------------------------------------------------------------
  // The filter
  // ---------------------------------------------------------------------

  /** The records `_filter_changes` keeps, in their original order. */
  function Filter(records: seq<Change>, includes: seq<string>, exclude: seq<string>, search: Search): seq<Change> {
    if records == [] then []
    else
      var last := records[|records| - 1];
      var kept := Filter(records[..|records| - 1], includes, exclude, search);
      if Keep(includes, exclude, search, last) then kept + [last] else kept
  }

  /** The records `_filter_changes` drops, in their original order. */
  function Rejected(records: seq<Change>, includes: seq<string>, exclude: seq<string>, search: Search): seq<Change> {
    if records == [] then []
    else
      var last := records[|records| - 1];
      var dropped := Rejected(records[..|records| - 1], includes, exclude, search);
      if Keep(includes, exclude, search, last) then dropped else dropped + [last]
  }

  /** The positions of the records `_filter_changes` keeps, in increasing order. */
  function KeptPositions(records: seq<Change>, includes: seq<string>, exclude: seq<string>, search: Search): seq<nat> {
    if records == [] then []
    else
      var n := |records| - 1;
      var prev := KeptPositions(records[..n], includes, exclude, search);
      if Keep(includes, exclude, search, records[n]) then prev + [n] else prev
  }

  /** Every kept position is a position of `records`, and they increase. */
  lemma {:induction false} KeptPositionsIncrease(records: seq<Change>, includes: seq<string>, exclude: seq<string>, search: Search)
    ensures forall k :: 0 <= k < |KeptPositions(records, includes, exclude, search)| ==>
      KeptPositions(records, includes, exclude, search)[k] < |records|
    ensures forall k, l :: 0 <= k < l < |KeptPositions(records, includes, exclude, search)| ==>
      KeptPositions(records, includes, exclude, search)[k] < KeptPositions(records, includes, exclude, search)[l]
  {
    if records != [] {
      var n := |records| - 1;
      KeptPositionsIncrease(records[..n], includes, exclude, search);
      var prev := KeptPositions(records[..n], includes, exclude, search);
      var idx := KeptPositions(records, includes, exclude, search);
      assert idx == if Keep(includes, exclude, search, records[n]) then prev + [n] else prev;
      forall k, l | 0 <= k < l < |idx| ensures idx[k] < idx[l] {
        if l < |prev| {
          assert idx[k] == prev[k] && idx[l] == prev[l];
        } else {
          assert idx[k] == prev[k] < n == idx[l];
        }
      }
    }
  }

  /** The filter result is the records at the kept positions. */
  lemma {:induction false} KeptPositionsSelect(records: seq<Change>, includes: seq<string>, exclude: seq<string>, search: Search)
    ensures |KeptPositions(records, includes, exclude, search)| == |Filter(records, includes, exclude, search)|
    ensures forall k :: 0 <= k < |KeptPositions(records, includes, exclude, search)| ==>
      KeptPositions(records, includes, exclude, search)[k] < |records|
      && Filter(records, includes, exclude, search)[k] == records[KeptPositions(records, includes, exclude, search)[k]]
  {
    if records != [] {
      var n := |records| - 1;
      var init := records[..n];
      KeptPositionsSelect(init, includes, exclude, search);
      var prev := KeptPositions(init, includes, exclude, search);
      forall k | 0 <= k < |prev| ensures init[prev[k]] == records[prev[k]] { }
    }
  }

  /** A position is kept exactly when its record passes both tests. */
  lemma {:induction false} KeptPositionsExact(records: seq<Change>, includes: seq<string>, exclude: seq<string>, search: Search)
    ensures forall i :: 0 <= i < |records| ==>
      (i in KeptPositions(records, includes, exclude, search) <==> Keep(includes, exclude, search, records[i]))
  {
    if records != [] {
      var n := |records| - 1;
      var init := records[..n];
      KeptPositionsExact(init, includes, exclude, search);
      KeptPositionsIncrease(init, includes, exclude, search);
      var prev := KeptPositions(init, includes, exclude, search);
      assert n !in prev;
      forall i | 0 <= i < n ensures records[i] == init[i] { }
    }
  }

  /**
   * The filter result is an order-preserving subsequence of the records:
   * `idx` lists, increasing, the positions it was taken from, and a position
   * is among them exactly when its record passes both tests.
   */
  lemma FilterSubsequence(records: seq<Change>, includes: seq<string>, exclude: seq<string>, search: Search)
    returns (idx: seq<nat>)
    ensures |idx| == |Filter(records, includes, exclude, search)|
    ensures forall k :: 0 <= k < |idx| ==>
      idx[k] < |records| && Filter(records, includes, exclude, search)[k] == records[idx[k]]
    ensures forall k, l :: 0 <= k < l < |idx| ==> idx[k] < idx[l]
    ensures forall i :: 0 <= i < |records| ==> (i in idx <==> Keep(includes, exclude, search, records[i]))
  {
    idx := KeptPositions(records, includes, exclude, search);
    KeptPositionsIncrease(records, includes, exclude, search);
    KeptPositionsSelect(records, includes, exclude, search);
    KeptPositionsExact(records, includes, exclude, search);
  }

  /** Every kept record passes the include test and matches no exclude pattern. */
  lemma {:induction false} FilterSound(records: seq<Change>, includes: seq<string>, exclude: seq<string>, search: Search, c: Change)
    requires c in Filter(records, includes, exclude, search)
    ensures includes != [] ==> exists p :: p in includes && search(p, FullName(c))
    ensures forall p :: p in exclude ==> !search(p, FullName(c))
  {
    var idx := FilterSubsequence(records, includes, exclude, search);
    var k :| 0 <= k < |idx| && Filter(records, includes, exclude, search)[k] == c;
    assert idx[k] in idx;
  }

  /** With no include and no exclude patterns every record is kept, unchanged and in order. */
  lemma {:induction false} FilterKeepsAll(records: seq<Change>, search: Search)
    ensures Filter(records, [], [], search) == records
  {
    if records != [] {
      FilterKeepsAll(records[..|records| - 1], search);
    }
  }

  /** Every record is either kept or rejected: the two counts add up. */
  lemma {:induction false} FilterPartition(records: seq<Change>, includes: seq<string>, exclude: seq<string>, search: Search)
    ensures |Filter(records, includes, exclude, search)| + |Rejected(records, includes, exclude, search)| == |records|
  {
    if records != [] {
      FilterPartition(records[..|records| - 1], includes, exclude, search);
    }
  }

  /**
   * A change to a custom field or compact layout of an excluded namespace is
   * never kept when the exclude list is the one `_init_options` builds, and
   * neither is one matching a source-ignore entry.
   */
  lemma ExcludedNamespaceDropped(
    records: seq<Change>, includes: seq<string>, userExclude: seq<string>,
    namespaces: seq<string>, sourceIgnore: seq<string>, search: Search, c: Change)
    requires c in Filter(records, includes, ExcludePatterns(userExclude, namespaces, sourceIgnore), search)
    ensures forall ns :: ns in namespaces ==>
      !search(CustomFieldPattern(ns), FullName(c)) && !search(CompactLayoutPattern(ns), FullName(c))
    ensures forall p :: p in sourceIgnore ==> !search(p, FullName(c))
  {
    var exclude := ExcludePatterns(userExclude, namespaces, sourceIgnore);
    FilterSound(records, includes, exclude, search, c);
    NamespacePatternsAt(namespaces);
    forall ns | ns in namespaces
      ensures CustomFieldPattern(ns) in exclude && CompactLayoutPattern(ns) in exclude
    {
      var i :| 0 <= i < |namespaces| && namespaces[i] == ns;
      assert NamespacePatterns(namespaces)[2 * i] == CustomFieldPattern(ns);
      assert NamespacePatterns(namespaces)[2 * i + 1] == CompactLayoutPattern(ns);
      assert exclude[|userExclude| + 2 * i] == CustomFieldPattern(ns);
      assert exclude[|userExclude| + 2 * i + 1] == CompactLayoutPattern(ns);
    }
    forall p | p in sourceIgnore ensures p in exclude {
      var i :| 0 <= i < |sourceIgnore| && sourceIgnore[i] == p;
      assert exclude[|userExclude| + |NamespacePatterns(namespaces)| + i] == p;
    }
  }

  // ---------------------------------------------------------------------
  // Grouping the kept records by metadata type
  // ---------------------------------------------------------------------

  /** The distinct member types of `cs`, in the order of their first occurrence. */
  function TypesInOrder(cs: seq<Change>): seq<string> {
    if cs == [] then []
    else
      var last := cs[|cs| - 1];
      var seen := TypesInOrder(cs[..|cs| - 1]);
      if last.memberType in seen then seen else seen + [last.memberType]
  }

  /** The member names of the records of type `t`, in their original order. */
  function NamesOfType(cs: seq<Change>, t: string): seq<string> {
    if cs == [] then []
    else
      var last := cs[|cs| - 1];
      var names := NamesOfType(cs[..|cs| - 1], t);
      if last.memberType == t then names + [last.memberName] else names
  }

  /** The total number of names over the groups of `types`. */
  function GroupSizes(cs: seq<Change>, types: seq<string>): nat {
    if types == [] then 0
    else GroupSizes(cs, types[..|types| - 1]) + |NamesOfType(cs, types[|types| - 1])|
  }

  /**
   * Each type occurs once, and a type occurs exactly when some record has it,
   * which is exactly when its group of names is not empty.
   */
  lemma {:induction false} TypesInOrderSpec(cs: seq<Change>)
    ensures Distinct(TypesInOrder(cs))
    ensures forall t :: t in TypesInOrder(cs) <==> exists i :: 0 <= i < |cs| && cs[i].memberType == t
    ensures forall t :: t in TypesInOrder(cs) <==> NamesOfType(cs, t) != []
  {
    if cs != [] {
      var init := cs[..|cs| - 1];
      TypesInOrderSpec(init);
      assert forall i :: 0 <= i < |init| ==> cs[i] == init[i];
      forall t ensures t in TypesInOrder(cs) <==> exists i :: 0 <= i < |cs| && cs[i].memberType == t {
        if exists i :: 0 <= i < |cs| && cs[i].memberType == t {
          var i :| 0 <= i < |cs| && cs[i].memberType == t;
          if i < |init| {
            assert init[i].memberType == t;
          }
        }
      }
    }
  }

  /** Adding one record adds one name, to the group of its own type if that type is listed. */
  lemma {:induction false} GroupSizesStep(cs: seq<Change>, c: Change, types: seq<string>)
    requires Distinct(types)
    ensures GroupSizes(cs + [c], types) == GroupSizes(cs, types) + (if c.memberType in types then 1 else 0)
  {
    assert (cs + [c])[..|cs|] == cs;
    if types != [] {
      var init := types[..|types| - 1];
      GroupSizesStep(cs, c, init);
      assert c.memberType in types <==> c.memberType in init || c.memberType == types[|types| - 1];
    }
  }

  /** The group sizes add up to the number of kept records. */
  lemma {:induction false} GroupSizesSum(cs: seq<Change>)
    ensures GroupSizes(cs, TypesInOrder(cs)) == |cs|
  {
    if cs != [] {
      var init, c := cs[..|cs| - 1], cs[|cs| - 1];
      assert cs == init + [c];
      GroupSizesSum(init);
      TypesInOrderSpec(init);
      var seen := TypesInOrder(init);
      GroupSizesStep(init, c, seen);
      if c.memberType !in seen {
        assert (seen + [c.memberType])[..|seen|] == seen;
        assert NamesOfType(init, c.memberType) == [];
      }
    }
  }

  /** A metadata type and its members, as handed to the package.xml generator. */
  datatype MetadataType = MetadataType(name: string, members: seq<string>)

  /** One MetadataType per type of the kept records, in first-occurrence order. */
  function GroupedTypes(cs: seq<Change>): seq<MetadataType> {
    var types := TypesInOrder(cs);
    seq(|types|, j requires 0 <= j < |types| => MetadataType(types[j], NamesOfType(cs, types[j])))
  }

  /**
   * Filling the `type_members` defaultdict: the keys are the types in
   * first-occurrence order and each value lists that type's names in order.
   */
  method GroupByType(filtered: seq<Change>) returns (typeMembers: OrderedMap)
    ensures typeMembers.Valid()
    ensures typeMembers.keys == TypesInOrder(filtered)
    ensures forall t :: t in typeMembers.values ==> typeMembers.values[t] == NamesOfType(filtered, t)
  {
    typeMembers := Empty;
    for i := 0 to |filtered|
      invariant typeMembers.Valid()
      invariant typeMembers.keys == TypesInOrder(filtered[..i])
      invariant forall t :: typeMembers.Get(t) == NamesOfType(filtered[..i], t)
    {
      assert filtered[..i + 1][..i] == filtered[..i];
      typeMembers := typeMembers.AppendTo(filtered[i].memberType, filtered[i].memberName);
    }
    assert filtered[..|filtered|] == filtered;
  }

  // ---------------------------------------------------------------------
  // The existing package.xml and the merge
  // ---------------------------------------------------------------------

  /** The `members` of a parsed `<types>` element: one string, or a list of them. */
  datatype MembersField = Single(member: string) | Many(members: seq<string>)

  /** A parsed `<types>` element; either child element may be missing. */
  datatype ManifestType = ManifestType(name: Option<string>, members: Option<MembersField>)

  /**
   * `Package.get("types", [])` of the parsed manifest: absent (no file, or no
   * `<types>`), a single element (the parser yields one dictionary when the
   * manifest has exactly one `<types>`), or a list of them.
   */
  datatype TypesField = NoTypes | OneType(single: ManifestType) | TypeList(entries: seq<ManifestType>)

  /** A member field as a list: a lone string becomes a one-element list. */
  function MemberList(m: MembersField): seq<string> {
    match m
    case Single(s) => [s]
    case Many(xs) => xs
  }

  /** An element whose members are present and non-empty is merged under its name. */
  predicate Contributes(t: ManifestType) {
    t.members.Some? && MemberList(t.members.value) != []
  }

  /** The `<types>` elements to walk, a single one taken as a one-element list. */
  function TypeEntries(types: TypesField): seq<ManifestType> {
    match types
    case NoTypes => []
    case OneType(t) => [t]
    case TypeList(ts) => ts
  }

  /** The `merged_type_members` dict read from the manifest entries, or the KeyError of a nameless entry. */
  function LoadTypes(ts: seq<ManifestType>): Result<OrderedMap> {
    if ts == [] then Ok(Empty)
    else
      match LoadTypes(ts[..|ts| - 1])
      case Err(e) => Err(e)
      case Ok(m) =>
        var t := ts[|ts| - 1];
        if !Contributes(t) then Ok(m)
        else if t.name.None? then Err(KeyError("name"))
        else Ok(m.Put(t.name.value, MemberList(t.members.value)))
  }

  /** Whether entry `i` is the last one that contributes under name `k`. */
  predicate LastContributor(ts: seq<ManifestType>, i: int, k: string) {
    0 <= i < |ts| && Contributes(ts[i]) && ts[i].name == Some(k)
    && forall j :: i < j < |ts| ==> !(Contributes(ts[j]) && ts[j].name == Some(k))
  }

  /**
   * Reading the manifest fails exactly when a contributing entry has no name.
   * Otherwise a name is a key exactly when some entry with that name has
   * non-empty members; its value is the member list of the last such entry
   * (a later assignment overwrites an earlier one).
   */
  lemma LoadTypesSpec(ts: seq<ManifestType>)
    ensures LoadTypes(ts).Ok? ==> LoadTypes(ts).value.Valid()
    ensures LoadTypes(ts).Err? <==> exists i :: 0 <= i < |ts| && Contributes(ts[i]) && ts[i].name.None?
    ensures LoadTypes(ts).Ok? ==> forall k :: k in LoadTypes(ts).value.values <==>
      exists i :: 0 <= i < |ts| && Contributes(ts[i]) && ts[i].name == Some(k)
    ensures LoadTypes(ts).Ok? ==> forall k, i :: LastContributor(ts, i, k) ==>
      LoadTypes(ts).value.values[k] == MemberList(ts[i].members.value)
  {
    LoadTypesValid(ts);
    LoadTypesFails(ts);
    LoadTypesDomain(ts);
    forall k, i | LoadTypes(ts).Ok? && LastContributor(ts, i, k)
      ensures LoadTypes(ts).value.values[k] == MemberList(ts[i].members.value)
    {
      LoadTypesLastWins(ts, i, k);
    }
  }

  /** A successful read yields a well-formed dict. */
  lemma {:induction false} LoadTypesValid(ts: seq<ManifestType>)
    ensures LoadTypes(ts).Ok? ==> LoadTypes(ts).value.Valid()
  {
    if ts != [] {
      LoadTypesValid(ts[..|ts| - 1]);
    }
  }

  /** Reading fails exactly when a contributing entry has no name. */
  lemma {:induction false} LoadTypesFails(ts: seq<ManifestType>)
    ensures LoadTypes(ts).Err? <==> exists i :: 0 <= i < |ts| && Contributes(ts[i]) && ts[i].name.None?
  {
    if ts != [] {
      var n := |ts| - 1;
      var init := ts[..n];
      LoadTypesFails(init);
      if LoadTypes(init).Err? {
        var i :| 0 <= i < n && Contributes(init[i]) && init[i].name.None?;
        assert ts[i] == init[i];
      } else {
        forall i | 0 <= i < n ensures ts[i] == init[i] { }
      }
    }
  }

  /** A name is a key exactly when some contributing entry has it. */
  lemma {:induction false} LoadTypesDomain(ts: seq<ManifestType>)
    ensures LoadTypes(ts).Ok? ==> forall k :: k in LoadTypes(ts).value.values <==>
      exists i :: 0 <= i < |ts| && Contributes(ts[i]) && ts[i].name == Some(k)
  {
    if ts != [] && LoadTypes(ts).Ok? {
      var n := |ts| - 1;
      var init := ts[..n];
      LoadTypesDomain(init);
      assert LoadTypes(init).Ok?;
      forall k
        ensures k in LoadTypes(ts).value.values <==>
          exists i :: 0 <= i < |ts| && Contributes(ts[i]) && ts[i].name == Some(k)
      {
        if exists i :: 0 <= i < |ts| && Contributes(ts[i]) && ts[i].name == Some(k) {
          var i :| 0 <= i < |ts| && Contributes(ts[i]) && ts[i].name == Some(k);
          if i < n {
            assert init[i] == ts[i];
          }
        }
        if k in LoadTypes(init).value.values {
          var i :| 0 <= i < n && Contributes(init[i]) && init[i].name == Some(k);
          assert ts[i] == init[i];
        }
      }
    }
  }

  /** A key's value is the member list of the last contributing entry with that name. */
  lemma {:induction false} LoadTypesLastWins(ts: seq<ManifestType>, i: int, k: string)
    requires LoadTypes(ts).Ok? && LastContributor(ts, i, k)
    ensures k in LoadTypes(ts).value.values && LoadTypes(ts).value.values[k] == MemberList(ts[i].members.value)
  {
    var n := |ts| - 1;
    var init := ts[..n];
    assert LoadTypes(init).Ok?;
    if i < n {
      assert init[i] == ts[i];
      forall j | i < j < n ensures init[j] == ts[j] { }
      assert LastContributor(init, i, k);
      LoadTypesLastWins(init, i, k);
    }
  }

  /**
   * Reading the existing manifest into `merged_type_members`. A lone member
   * string becomes a one-element list; entries without `members`, or with an
   * empty member list, are skipped; a contributing entry without a name
   * raises KeyError.
   */
  method ReadManifest(types: TypesField) returns (r: Result<OrderedMap>)
    ensures r == LoadTypes(TypeEntries(types))
    ensures r.Ok? ==> r.value.Valid()
  {
    var ts := TypeEntries(types);
    var merged := Empty;
    for i := 0 to |ts|
      invariant LoadTypes(ts[..i]) == Ok(merged)
      invariant merged.Valid()
    {
      assert ts[..i + 1][..i] == ts[..i];
      var mdtype := ts[i];
      if mdtype.members.None? {
        continue;
      }
      var members: seq<string> := [];
      match mdtype.members.value {
        case Single(s) =>
          members := members + [s];
        case Many(xs) =>
          for j := 0 to |xs|
            invariant members == xs[..j]
          {
            members := members + [xs[j]];
          }
          assert xs[..|xs|] == xs;
      }
      assert members == MemberList(mdtype.members.value);
      if members != [] {
        if mdtype.name.None? {
          LoadTypesErrorPersists(ts, i + 1);
          assert ts[..|ts|] == ts;
          return Err(KeyError("name"));
        }
        merged := merged.Put(mdtype.name.value, members);
      }
    }
    assert ts[..|ts|] == ts;
    return Ok(merged);
  }

  /** Once a prefix of the entries fails, reading the whole list fails with the same error. */
  lemma {:induction false} LoadTypesErrorPersists(ts: seq<ManifestType>, i: nat)
    requires i <= |ts| && LoadTypes(ts[..i]).Err?
    ensures LoadTypes(ts) == LoadTypes(ts[..i])
    decreases |ts| - i
  {
    if i < |ts| {
      assert ts[..i + 1][..i] == ts[..i];
      LoadTypesErrorPersists(ts, i + 1);
    } else {
      assert ts[..i] == ts;
    }
  }

  /** The keys of `keys` that are not in `existing`, in order. */
  function KeysNotIn(keys: seq<string>, existing: set<string>): seq<string> {
    if keys == [] then []
    else
      var last := keys[|keys| - 1];
      var rest := KeysNotIn(keys[..|keys| - 1], existing);
      if last in existing then rest else rest + [last]
  }

  lemma {:induction false} KeysNotInSpec(keys: seq<string>, existing: set<string>)
    ensures forall k :: k in KeysNotIn(keys, existing) <==> k in keys && k !in existing
  {
    if keys != [] {
      var init := keys[..|keys| - 1];
      KeysNotInSpec(init, existing);
      assert keys == init + [keys[|keys| - 1]];
    }
  }

  /** The merged map after walking `names` of `typeMembers`, each name's members appended to its entry. */
  function MergeAll(merged: OrderedMap, typeMembers: OrderedMap, names: seq<string>): OrderedMap {
    if names == [] then merged
    else
      var m := MergeAll(merged, typeMembers, names[..|names| - 1]);
      var name := names[|names| - 1];
      m.Put(name, m.Get(name) + typeMembers.Get(name))
  }

  /** Merging into a well-formed dict yields a well-formed dict. */
  lemma {:induction false} MergeAllValid(merged: OrderedMap, typeMembers: OrderedMap, names: seq<string>)
    requires merged.Valid()
    ensures MergeAll(merged, typeMembers, names).Valid()
  {
    if names != [] {
      MergeAllValid(merged, typeMembers, names[..|names| - 1]);
    }
  }

  /** Merging keeps the existing types in place and adds the new ones after them, in order. */
  lemma {:induction false} MergeAllKeys(merged: OrderedMap, typeMembers: OrderedMap, names: seq<string>)
    requires Distinct(names)
    ensures MergeAll(merged, typeMembers, names).keys == merged.keys + KeysNotIn(names, merged.values.Keys)
  {
    if names != [] {
      var init, name := names[..|names| - 1], names[|names| - 1];
      assert names == init + [name];
      MergeAllKeys(merged, typeMembers, init);
      MergeAllDomain(merged, typeMembers, init);
      var m := MergeAll(merged, typeMembers, init);
      var added := KeysNotIn(init, merged.values.Keys);
      assert name !in init;
      assert KeysNotIn(names, merged.values.Keys) == if name in merged.values then added else added + [name];
      if name in merged.values {
        assert MergeAll(merged, typeMembers, names).keys == m.keys;
      } else {
        assert MergeAll(merged, typeMembers, names).keys == m.keys + [name];
        assert merged.keys + added + [name] == merged.keys + (added + [name]);
      }
    }
  }

  /** The merged map holds the existing types and the merged names. */
  lemma {:induction false} MergeAllDomain(merged: OrderedMap, typeMembers: OrderedMap, names: seq<string>)
    ensures forall k :: k in MergeAll(merged, typeMembers, names).values <==> k in merged.values || k in names
  {
    if names != [] {
      var init := names[..|names| - 1];
      MergeAllDomain(merged, typeMembers, init);
      assert names == init + [names[|names| - 1]];
    }
  }

  /** Each merged entry is its existing members followed by its new ones. */
  lemma {:induction false} MergeAllValues(merged: OrderedMap, typeMembers: OrderedMap, names: seq<string>)
    requires Distinct(names)
    ensures forall k ::
      MergeAll(merged, typeMembers, names).Get(k) == merged.Get(k) + (if k in names then typeMembers.Get(k) else [])
  {
    if names != [] {
      var init, name := names[..|names| - 1], names[|names| - 1];
      assert names == init + [name];
      MergeAllValues(merged, typeMembers, init);
      assert name !in init;
    }
  }

  /**
   * Merging distinct names keeps the existing types in place and adds the new
   * ones after them, in order; each entry is its existing members followed by
   * its new ones.
   */
  lemma MergeAllSpec(merged: OrderedMap, typeMembers: OrderedMap, names: seq<string>)
    requires merged.Valid() && Distinct(names)
    ensures MergeAll(merged, typeMembers, names).Valid()
    ensures MergeAll(merged, typeMembers, names).keys == merged.keys + KeysNotIn(names, merged.values.Keys)
    ensures forall k ::
      MergeAll(merged, typeMembers, names).Get(k) == merged.Get(k) + (if k in names then typeMembers.Get(k) else [])
  {
    MergeAllValid(merged, typeMembers, names);
    MergeAllKeys(merged, typeMembers, names);
    MergeAllValues(merged, typeMembers, names);
  }

  /**
   * Appending the new members onto the manifest's: a type already present
   * keeps its place and gets the new names after its existing ones; a new
   * type is added at the end with its new names.
   */
  method MergeMembers(merged: OrderedMap, typeMembers: OrderedMap) returns (m: OrderedMap)
    requires merged.Valid() && typeMembers.Valid()
    ensures m.Valid()
    ensures m.keys == merged.keys + KeysNotIn(typeMembers.keys, merged.values.Keys)
    ensures forall k :: m.Get(k) == merged.Get(k) + typeMembers.Get(k)
  {
    m := merged;
    var keys := typeMembers.keys;
    for i := 0 to |keys|
      invariant m == MergeAll(merged, typeMembers, keys[..i])
    {
      assert keys[..i + 1][..i] == keys[..i];
      var name := keys[i];
      var members := typeMembers.values[name];
      ghost var next := m.Put(name, m.Get(name) + typeMembers.Get(name));
      assert next == MergeAll(merged, typeMembers, keys[..i + 1]);
      if name in m.values {
        m := m.Put(name, m.values[name] + members);
      } else {
        assert m.Get(name) + typeMembers.Get(name) == members;
        m := m.Put(name, members);
      }
    }
    assert keys[..|keys|] == keys;
    MergeAllSpec(merged, typeMembers, keys);
  }

  // ---------------------------------------------------------------------
  // The task
  // ---------------------------------------------------------------------

  /** What RetrieveChanges hands to the retrieve call: the API version and the types to retrieve. */
  datatype RetrieveRequest = RetrieveRequest(apiVersion: string, types: seq<MetadataType>)

  /**
   * The options of ListChanges and of its subclass RetrieveChanges, which
   * adds only the retrieve step. `exclude` is `self._exclude`, the very list
   * object that `excludeOption`, `options["exclude"]`, holds.
   */
  class ChangeTask {
    var includes: seq<string>
    var excludeNamespace: seq<string>
    var excludeOption: PatternList
    var exclude: PatternList

    /**
     * `_init_options`: the exclude option is extended in place with two
     * patterns per excluded namespace and then the project's source-ignore list.
     */
    constructor (includes: seq<string>, userExclude: seq<string>, excludeNamespace: seq<string>, sourceIgnore: seq<string>)
      ensures this.includes == includes && this.excludeNamespace == excludeNamespace
      ensures exclude == excludeOption && fresh(exclude)
      ensures exclude.items == ExcludePatterns(userExclude, excludeNamespace, sourceIgnore)
    {
      this.includes := includes;
      var options := new PatternList(userExclude);
      excludeOption := options;
      this.excludeNamespace := excludeNamespace;
      exclude := options;
      new;
      for i := 0 to |excludeNamespace|
        invariant exclude == excludeOption && fresh(exclude)
        invariant this.includes == includes && this.excludeNamespace == excludeNamespace
        invariant exclude.items == userExclude + NamespacePatterns(excludeNamespace[..i])
      {
        assert excludeNamespace[..i + 1][..i] == excludeNamespace[..i];
        exclude.Append(CustomFieldPattern(excludeNamespace[i]));
        exclude.Append(CompactLayoutPattern(excludeNamespace[i]));
      }
      assert excludeNamespace[..|excludeNamespace|] == excludeNamespace;
      if sourceIgnore != [] {
        exclude.Extend(sourceIgnore);
      }
    }

    /** `_filter_changes`: the records that pass the include and exclude tests, in order. */
    method FilterChanges(records: seq<Change>, search: Search) returns (filtered: seq<Change>)
      ensures filtered == Filter(records, includes, exclude.items, search)
    {
      filtered := [];
      for i := 0 to |records|
        invariant filtered == Filter(records[..i], includes, exclude.items, search)
      {
        assert records[..i + 1][..i] == records[..i];
        var change := records[i];
        var fullName := FullName(change);
        if includes != [] && !AnyMatch(includes, fullName, search) {
          continue;
        }
        if AnyMatch(exclude.items, fullName, search) {
          continue;
        }
        filtered := filtered + [change];
      }
      assert records[..|records|] == records;
    }

    /**
     * ListChanges._run_task without its logging: the listed changes, and the
     * ignored count, which is the number of records the filter dropped.
     */
    method ListChanges(records: seq<Change>, search: Search) returns (filtered: seq<Change>, ignored: int)
      ensures filtered == Filter(records, includes, exclude.items, search)
      ensures ignored >= 0
      ensures ignored == |Rejected(records, includes, exclude.items, search)|
    {
      filtered := FilterChanges(records, search);
      FilterPartition(records, includes, exclude.items, search);
      ignored := |records| - |filtered|;
    }

    /**
     * RetrieveChanges._get_api. Nothing is retrieved, and the manifest is not
     * looked at, when no record is kept. Otherwise the manifest is read and
     * merged, and its only effect on the result is its KeyError: the types
     * requested are those of the kept records alone.
     */
    method GetApi(records: seq<Change>, search: Search, manifest: TypesField, apiVersion: string)
      returns (r: Result<Option<RetrieveRequest>>)
      ensures Filter(records, includes, exclude.items, search) == [] ==> r == Ok(None)
      ensures Filter(records, includes, exclude.items, search) != [] ==>
        (r.Err? <==> LoadTypes(TypeEntries(manifest)).Err?)
      ensures r.Err? ==> r.error == KeyError("name")
      ensures Filter(records, includes, exclude.items, search) != [] && r.Ok? ==>
        r.value == Some(RetrieveRequest(apiVersion, GroupedTypes(Filter(records, includes, exclude.items, search))))
    {
      var filtered := FilterChanges(records, search);
      if filtered == [] {
        return Ok(None);
      }
      var typeMembers := GroupByType(filtered);

      var current := ReadManifest(manifest);
      if current.Err? {
        LoadTypesErrorIsKeyError(TypeEntries(manifest));
        return Err(current.error);
      }
      var merged := MergeMembers(current.value, typeMembers);

      var types := MetadataTypes(typeMembers);
      GroupedTypesFromMap(filtered, typeMembers, types);
      return Ok(Some(RetrieveRequest(apiVersion, types)));
    }
  }

  /** The type list built from the grouped dict is the grouping of the kept records. */
  lemma GroupedTypesFromMap(filtered: seq<Change>, typeMembers: OrderedMap, types: seq<MetadataType>)
    requires typeMembers.Valid() && typeMembers.keys == TypesInOrder(filtered)
    requires forall t :: t in typeMembers.values ==> typeMembers.values[t] == NamesOfType(filtered, t)
    requires |types| == |typeMembers.keys|
    requires forall j :: 0 <= j < |types| ==>
      types[j] == MetadataType(typeMembers.keys[j], typeMembers.values[typeMembers.keys[j]])
    ensures types == GroupedTypes(filtered)
  {
  }

  /** `[MetadataType(name, members) for name, members in type_members.items()]`. */
  method MetadataTypes(typeMembers: OrderedMap) returns (types: seq<MetadataType>)
    requires typeMembers.Valid()
    ensures |types| == |typeMembers.keys|
    ensures forall j :: 0 <= j < |types| ==>
      types[j] == MetadataType(typeMembers.keys[j], typeMembers.values[typeMembers.keys[j]])
  {
    types := [];
    var keys := typeMembers.keys;
    for i := 0 to |keys|
      invariant |types| == i
      invariant forall j :: 0 <= j < i ==> types[j] == MetadataType(keys[j], typeMembers.values[keys[j]])
    {
      types := types + [MetadataType(keys[i], typeMembers.values[keys[i]])];
    }
  }

  /** The only exception reading the manifest raises is the KeyError for a missing name. */
  lemma {:induction false} LoadTypesErrorIsKeyError(ts: seq<ManifestType>)
    ensures LoadTypes(ts).Err? ==> LoadTypes(ts).error == KeyError("name")
  {
    if ts != [] {
      LoadTypesErrorIsKeyError(ts[..|ts| - 1]);
    }
  }

  // ---------------------------------------------------------------------
  // The manifest as the code walks it
  // ---------------------------------------------------------------------

  /**
   * `for mdtype in Package.get("types", [])` as written: when the manifest
   * has one `<types>` element the parser yields a dictionary, and iterating
   * over it walks its keys. The key `"members"` passes the `"members" not in
   * mdtype` substring test and `"members"["members"]` raises TypeError; a
   * lone element without members is walked as if empty.
   */
  function ReadManifestAsWritten(types: TypesField): Result<OrderedMap> {
    match types
    case NoTypes => Ok(Empty)
    case TypeList(ts) => LoadTypes(ts)
    case OneType(t) =>
      if t.members.Some? then Err(TypeError("string indices must be integers")) else Ok(Empty)
  }

  /**
   * As written, a manifest with a single well-formed `<types>` element makes
   * the retrieve fail, although the same element in a list is read fine.
   */
  lemma SingleTypeManifestFails(name: string, member: string)
    ensures ReadManifestAsWritten(OneType(ManifestType(Some(name), Some(Single(member))))).Err?
    ensures ReadManifestAsWritten(TypeList([ManifestType(Some(name), Some(Single(member)))])).Ok?
  {
    var ts := [ManifestType(Some(name), Some(Single(member)))];
    assert ts[..0] == [];
    assert LoadTypes(ts[..0]) == Ok(Empty);
  }

  /** Read as a one-element list, a single `<types>` element contributes its members under its name. */
  lemma SingleTypeManifestLoads(t: ManifestType)
    requires t.name.Some? && Contributes(t)
    ensures LoadTypes(TypeEntries(OneType(t))).Ok?
    ensures LoadTypes(TypeEntries(OneType(t))).value.keys == [t.name.value]
    ensures LoadTypes(TypeEntries(OneType(t))).value.values[t.name.value] == MemberList(t.members.value)
  {
    assert [t][..0] == [];
  }
}
