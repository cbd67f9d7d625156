/** Display-name resolution for an OpenStreetMap node: a name chosen from the
    node's tags by a fixed language priority, followed by the operator in
    parentheses when the node names one. */
module NodeName {
  import opened Results

  /** An OSM tag map, e.g. {"name": "Shop", "operator": "ACME"}. */
  type Tags = map<string, string>

  /** The name tags, highest priority first. */
  const NameKeys: seq<string> := ["name:ja", "name", "name:en"]

  /** The name used when a node carries none of the name tags. */
  const NotAvailable: string := "N/A"

  const OperatorKey: string := "operator"

  /** The value of the first key of `keys` present in `tags`, if any. This is
      the reference meaning of a "priority list of tags". */
  function FirstPresent(keys: seq<string>, tags: Tags): (r: Option<string>)
    ensures r.None? <==> forall i :: 0 <= i < |keys| ==> keys[i] !in tags
    ensures r.Some? ==>
      exists i :: 0 <= i < |keys| && keys[i] in tags && r.value == tags[keys[i]] &&
        forall j :: 0 <= j < i ==> keys[j] !in tags
  {
    if keys == [] then None
    else if keys[0] in tags then Some(tags[keys[0]])
    else
      var rest := FirstPresent(keys[1..], tags);
      assert forall i :: 1 <= i < |keys| ==> keys[i] == keys[1..][i - 1];
      rest
  }

  /** The base name: the if/elif chain over `name:ja`, `name` and `name:en`
      that the resolver runs, starting from "N/A". */
  function BaseName(tags: Tags): string {
    if "name:ja" in tags then tags["name:ja"]
    else if "name" in tags then tags["name"]
    else if "name:en" in tags then tags["name:en"]
    else NotAvailable
  }

  /** The if/elif chain is the priority list `NameKeys`: the base name is the
      value of the first name tag present, or "N/A" when there is none. */
  lemma BaseNameIsFirstPresent(tags: Tags)
    ensures BaseName(tags) == FirstPresent(NameKeys, tags).GetOr(NotAvailable)
  {
    assert FirstPresent(NameKeys, tags) ==
      if "name:ja" in tags then Some(tags["name:ja"]) else FirstPresent(["name", "name:en"], tags);
    assert FirstPresent(["name", "name:en"], tags) ==
      if "name" in tags then Some(tags["name"]) else FirstPresent(["name:en"], tags);
  }

  /** The operator tag's value, or the empty string when the tag is absent. */
  function OperatorOf(tags: Tags): (r: string)
    ensures r == "" <==> OperatorKey !in tags || tags[OperatorKey] == ""
    ensures r != "" ==> r == tags[OperatorKey]
  {
    if OperatorKey in tags then tags[OperatorKey] else ""
  }

  /** The display name of a node with tags `tags`: it always begins with the
      base name, and what follows it is "(operator)" when the operator is
      non-empty and nothing otherwise. */
  function DisplayName(tags: Tags): (r: string)
    ensures |BaseName(tags)| <= |r| && r[..|BaseName(tags)|] == BaseName(tags)
    ensures OperatorOf(tags) == "" ==> r == BaseName(tags)
    ensures OperatorOf(tags) != "" ==>
      r[|BaseName(tags)|..] == "(" + tags[OperatorKey] + ")"
  {
    var name := BaseName(tags);
    var operator := OperatorOf(tags);
    if |operator| > 0 then name + "(" + operator + ")" else name
  }

  /** The priority between the name tags, case by case. */
  lemma BaseNamePriority(tags: Tags)
    ensures "name:ja" in tags ==> BaseName(tags) == tags["name:ja"]
    ensures "name:ja" !in tags && "name" in tags ==> BaseName(tags) == tags["name"]
    ensures "name:ja" !in tags && "name" !in tags && "name:en" in tags ==>
      BaseName(tags) == tags["name:en"]
    ensures (forall k :: k in NameKeys ==> k !in tags) ==> BaseName(tags) == NotAvailable
  {
  }

  /** The display name reads only the three name tags and the operator tag:
      two tag maps that agree on those give the same display name. */
  lemma DisplayNameReadsOnlyItsTags(t1: Tags, t2: Tags)
    requires forall k :: k in NameKeys + [OperatorKey] ==>
      (k in t1 <==> k in t2) && (k in t1 ==> t1[k] == t2[k])
    ensures DisplayName(t1) == DisplayName(t2)
  {
    var keys := NameKeys + [OperatorKey];
    assert keys[0] == "name:ja" && keys[1] == "name" && keys[2] == "name:en" && keys[3] == OperatorKey;
    assert BaseName(t1) == BaseName(t2);
    assert OperatorOf(t1) == OperatorOf(t2);
  }

  /** Worked examples of the resolver. */
  lemma DisplayNameExamples()
    ensures DisplayName(map["name" := "Shop", "operator" := "ACME"]) == "Shop(ACME)"
    ensures DisplayName(map[]) == NotAvailable
    ensures DisplayName(map["amenity" := "cafe", "operator" := ""]) == NotAvailable
    ensures DisplayName(map["operator" := "ACME"]) == "N/A(ACME)"
    ensures DisplayName(map["name:en" := "Tokyo Tower", "name" := "東京タワー"]) == "東京タワー"
    ensures DisplayName(map["name:ja" := "東京", "name" := "Tokyo", "name:en" := "Tokyo"]) == "東京"
  {
  }
}
