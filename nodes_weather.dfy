/** The enrichment pipeline: every OSM node, in order, paired with the current
    weather at its coordinates. Coordinates (`L`) are only copied, and the
    weather payload (`W`) and the fetch error (`E`) are passed through
    untouched, so all three are type parameters. The weather service is the
    parameter `fetch`, called as `fetch(call, apiKey, lat, lon)` where `call`
    is the position of the call in the run. */
module NodesWeather {
  import opened Results
  import opened NodeName

  /** A node as the Overpass API or a cached export delivers it. */
  datatype Node<L> = Node(id: int, lat: L, lon: L, tags: Tags)

  /** The `osm` part of an output record. */
  datatype OsmInfo<L> = OsmInfo(id: int, name: string, lat: L, lon: L)

  /** One output record: `{osm: {id, name, lat, lon}, openweathermap_current_weather_data: weather}`. */
  datatype WeatherRecord<L, W> = WeatherRecord(osm: OsmInfo<L>, weather: W)

  /** `r` is the record for `node` with weather `w`: id and coordinates are
      copied, the name is the resolved display name, the payload is `w`. */
  ghost predicate Describes<L, W>(r: WeatherRecord<L, W>, node: Node<L>, w: W) {
    r.osm.id == node.id && r.osm.lat == node.lat && r.osm.lon == node.lon &&
    r.osm.name == DisplayName(node.tags) && r.weather == w
  }

  /** The record the loop body builds for `node` once `weather` has arrived. */
  function RecordOf<L, W>(node: Node<L>, weather: W): (r: WeatherRecord<L, W>)
    ensures Describes(r, node, weather)
  {
    WeatherRecord(OsmInfo(node.id, DisplayName(node.tags), node.lat, node.lon), weather)
  }

  /** The weather service. Its answer may depend on which call of the run it
      is (0 for the first node, 1 for the second, ...), which stands for the
      time of the call and the requests already made; it returns a payload or
      raises an error. */
  type Fetch<-L, W, E> = (nat, string, L, L) -> Result<W, E>

  /** The weather call made for `node` as call number `call` of the run. */
  function FetchFor<L, W, E>(fetch: Fetch<L, W, E>, apiKey: string, call: nat, node: Node<L>): Result<W, E> {
    fetch(call, apiKey, node.lat, node.lon)
  }

  /** Reference meaning of the pipeline, defined on the processed prefix: the
      records of `nodes[..|nodes|-1]`, then the last node's record, and the
      first error raised stops everything. */
  ghost function Enrich<L, W, E>(nodes: seq<Node<L>>, apiKey: string, fetch: Fetch<L, W, E>)
    : (r: Result<seq<WeatherRecord<L, W>>, E>)
    ensures r.Ok? ==> |r.value| == |nodes|
  {
    if nodes == [] then Ok([])
    else
      match Enrich(nodes[..|nodes| - 1], apiKey, fetch)
      case Err(e) => Err(e)
      case Ok(done) =>
        match FetchFor(fetch, apiKey, |nodes| - 1, nodes[|nodes| - 1])
        case Err(e) => Err(e)
        case Ok(w) => Ok(done + [RecordOf(nodes[|nodes| - 1], w)])
  }

  /** Once a prefix has failed, every longer run fails with the same error. */
  lemma {:induction false} EnrichPrefixFails<L, W, E>(nodes: seq<Node<L>>, k: nat, apiKey: string, fetch: Fetch<L, W, E>)
    requires k <= |nodes| && Enrich(nodes[..k], apiKey, fetch).Err?
    ensures Enrich(nodes, apiKey, fetch) == Enrich(nodes[..k], apiKey, fetch)
    decreases |nodes|
  {
    if k < |nodes| {
      var front := nodes[..|nodes| - 1];
      assert front[..k] == nodes[..k];
      EnrichPrefixFails(front, k, apiKey, fetch);
    } else {
      assert nodes[..k] == nodes;
    }
  }

  /** The pipeline succeeds exactly when every node's weather call returns. */
  lemma {:induction false} EnrichSucceedsIff<L, W, E>(nodes: seq<Node<L>>, apiKey: string, fetch: Fetch<L, W, E>)
    ensures Enrich(nodes, apiKey, fetch).Ok? <==>
      forall i :: 0 <= i < |nodes| ==> FetchFor(fetch, apiKey, i, nodes[i]).Ok?
    decreases |nodes|
  {
    if nodes != [] {
      var n := |nodes| - 1;
      var front := nodes[..n];
      EnrichSucceedsIff(front, apiKey, fetch);
      forall i | 0 <= i < n
        ensures FetchFor(fetch, apiKey, i, front[i]) == FetchFor(fetch, apiKey, i, nodes[i])
      {
        assert front[i] == nodes[i];
      }
      if Enrich(front, apiKey, fetch).Err? {
        var k :| 0 <= k < n && !FetchFor(fetch, apiKey, k, front[k]).Ok?;
        assert !FetchFor(fetch, apiKey, k, nodes[k]).Ok?;
      }
    }
  }

  /** A successful run yields one record per node, in input order, each built
      from its own node and its own weather payload. */
  lemma {:induction false} EnrichRecords<L, W, E>(nodes: seq<Node<L>>, apiKey: string, fetch: Fetch<L, W, E>)
    requires Enrich(nodes, apiKey, fetch).Ok?
    ensures |Enrich(nodes, apiKey, fetch).value| == |nodes|
    ensures forall i :: 0 <= i < |nodes| ==> (FetchFor(fetch, apiKey, i, nodes[i]).Ok? &&
      Describes(Enrich(nodes, apiKey, fetch).value[i], nodes[i], FetchFor(fetch, apiKey, i, nodes[i]).value))
    decreases |nodes|
  {
    if nodes != [] {
      var n := |nodes| - 1;
      var front := nodes[..n];
      EnrichRecords(front, apiKey, fetch);
      var done := Enrich(front, apiKey, fetch).value;
      var res := Enrich(nodes, apiKey, fetch).value;
      assert res == done + [RecordOf(nodes[n], FetchFor(fetch, apiKey, n, nodes[n]).value)];
      forall i | 0 <= i < |nodes|
        ensures FetchFor(fetch, apiKey, i, nodes[i]).Ok? &&
          Describes(res[i], nodes[i], FetchFor(fetch, apiKey, i, nodes[i]).value)
      {
        if i < n {
          assert front[i] == nodes[i] && res[i] == done[i];
        }
      }
    }
  }

  /** When the pipeline fails, its error is the one raised by the first node
      whose weather call fails; every node before it was fetched successfully. */
  lemma {:induction false} EnrichFailsAtFirst<L, W, E>(nodes: seq<Node<L>>, apiKey: string, fetch: Fetch<L, W, E>)
    requires Enrich(nodes, apiKey, fetch).Err?
    ensures exists k :: (0 <= k < |nodes| &&
      FetchFor(fetch, apiKey, k, nodes[k]) == Err(Enrich(nodes, apiKey, fetch).error) &&
      forall j :: 0 <= j < k ==> FetchFor(fetch, apiKey, j, nodes[j]).Ok?)
    decreases |nodes|
  {
    var front := nodes[..|nodes| - 1];
    assert forall i :: 0 <= i < |front| ==> front[i] == nodes[i];
    if Enrich(front, apiKey, fetch).Err? {
      EnrichFailsAtFirst(front, apiKey, fetch);
      var k :| 0 <= k < |front| &&
        FetchFor(fetch, apiKey, k, front[k]) == Err(Enrich(front, apiKey, fetch).error) &&
        forall j :: 0 <= j < k ==> FetchFor(fetch, apiKey, j, front[j]).Ok?;
      assert FetchFor(fetch, apiKey, k, nodes[k]) == Err(Enrich(nodes, apiKey, fetch).error);
    } else {
      EnrichSucceedsIff(front, apiKey, fetch);
      var k := |nodes| - 1;
      assert FetchFor(fetch, apiKey, k, nodes[k]) == Err(Enrich(nodes, apiKey, fetch).error);
    }
  }

  /** The loop of the pipeline: for each node in order, fetch its weather,
      resolve its name and append its record; a failing fetch aborts the
      whole run with no partial list. */
  method EnrichNodes<L, W, E>(nodes: seq<Node<L>>, apiKey: string, fetch: Fetch<L, W, E>)
    returns (res: Result<seq<WeatherRecord<L, W>>, E>)
    ensures res == Enrich(nodes, apiKey, fetch)
    ensures res.Ok? <==> forall i :: 0 <= i < |nodes| ==> FetchFor(fetch, apiKey, i, nodes[i]).Ok?
    ensures res.Ok? ==> (|res.value| == |nodes| &&
      forall i :: 0 <= i < |nodes| ==> Describes(res.value[i], nodes[i], FetchFor(fetch, apiKey, i, nodes[i]).value))
  {
    var records: seq<WeatherRecord<L, W>> := [];
    var i := 0;
    while i < |nodes|
      invariant 0 <= i <= |nodes|
      invariant Enrich(nodes[..i], apiKey, fetch) == Ok(records)
    {
      var node := nodes[i];
      var weather := fetch(i, apiKey, node.lat, node.lon);
      assert nodes[..i + 1][..i] == nodes[..i];
      if weather.Err? {
        EnrichPrefixFails(nodes, i + 1, apiKey, fetch);
        EnrichSucceedsIff(nodes, apiKey, fetch);
        return Err(weather.error);
      }
      records := records + [RecordOf(node, weather.value)];
      i := i + 1;
    }
    assert nodes[..i] == nodes;
    EnrichSucceedsIff(nodes, apiKey, fetch);
    EnrichRecords(nodes, apiKey, fetch);
    res := Ok(records);
  }

  /** The worked examples: a one-node export with a clear-sky payload, and a
      three-node run whose second weather call fails. */
  lemma EnrichExamples()
    ensures
      var tokyo := Node(1, "35.0", "139.0", map["name" := "Tokyo"]);
      var clear: Fetch<string, string, string> := (call, key, lat, lon) => Ok("Clear");
      Enrich([tokyo], "key", clear) ==
        Ok([WeatherRecord(OsmInfo(1, "Tokyo", "35.0", "139.0"), "Clear")])
    ensures
      var a := Node(1, "35.0", "139.0", map[]);
      var b := Node(2, "36.0", "140.0", map[]);
      var c := Node(3, "37.0", "141.0", map[]);
      var failOnB: Fetch<string, string, string> :=
        (call, key, lat, lon) => if call == 1 then Err("timeout") else Ok("Clear");
      Enrich([a, b, c], "key", failOnB) == Err("timeout")
  {
    var tokyo := Node(1, "35.0", "139.0", map["name" := "Tokyo"]);
    var clear: Fetch<string, string, string> := (call, key, lat, lon) => Ok("Clear");
    assert [tokyo][..0] == [];
    assert DisplayName(tokyo.tags) == "Tokyo";
    assert Enrich([tokyo][..0], "key", clear) == Ok([]);
    assert FetchFor(clear, "key", 0, tokyo) == Ok("Clear");
    assert [] + [RecordOf(tokyo, "Clear")] == [RecordOf(tokyo, "Clear")];
    assert Enrich([tokyo], "key", clear) == Ok([RecordOf(tokyo, "Clear")]);

    var a := Node(1, "35.0", "139.0", map[]);
    var b := Node(2, "36.0", "140.0", map[]);
    var c := Node(3, "37.0", "141.0", map[]);
    var failOnB: Fetch<string, string, string> :=
      (call, key, lat, lon) => if call == 1 then Err("timeout") else Ok("Clear");
    assert [a, b, c][..2] == [a, b];
    assert [a, b][..1] == [a];
    assert [a][..0] == [];
    assert Enrich([a], "key", failOnB).Ok?;
    assert FetchFor(failOnB, "key", 1, b) == Err("timeout");
    assert Enrich([a, b], "key", failOnB) == Err("timeout");
  }
}
