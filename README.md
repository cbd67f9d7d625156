# overpass_weather — a Dafny model of name resolution and record assembly

The original is a small Python pipeline. It takes OpenStreetMap nodes, either
from a live Overpass API query or from a cached Overpass JSON export. For each
node it fetches the current weather from OpenWeatherMap. It returns one merged
record per node, `{osm: {id, name, lat, lon}, openweathermap_current_weather_data: <payload>}`.

This Dafny project models the two parts of the pipeline that have logic of
their own:

- **Display-name resolution** (module `NodeName`, `node_name.dfy`). The base
  name is the value of the first tag present in the priority list `name:ja`,
  `name`, `name:en`. When none of them is present, it is `"N/A"`. A non-empty
  `operator` tag is appended in parentheses. `BaseName` keeps the source's
  if/elif chain. `FirstPresent` is an independent reference meaning of "first
  tag of a priority list", and `BaseNameIsFirstPresent` proves `BaseName`
  equal to it.
- **The enrichment loop** (module `NodesWeather`, `nodes_weather.dfy`). The
  weather service is a function parameter `fetch(call, apiKey, lat, lon)`,
  where `call` is the position of the call in the run (0 for the first node).
  The position stands for the time of the call and the requests made before
  it. The call either returns an opaque payload `W` or raises an error `E`. Coordinates are a type
  parameter `L` because they are only copied. `EnrichNodes` is the
  source's loop: it walks the nodes in order and appends one record per node.
  The first failing fetch aborts the run and no partial list is returned. The
  loop is proved equal to the ghost reference function `Enrich`. Lemmas about
  `Enrich` state the promised properties: one record per node, input order
  kept, id and coordinates copied, the name taken from the resolver, the
  payload taken from that node's own fetch, and failure exactly when some
  fetch fails, with the first failing node's error.

`results.dfy` holds the `Option` and `Result` types used by both modules.

## Model

| member | source | states |
|---|---|---|
| `NodeName.FirstPresent` | overpass_weahter.py:75-80 | The result is None exactly when no key of the list is in the tag map. Otherwise it is the value of a key that is present, and no earlier key of the list is present. |
| `NodeName.BaseNameIsFirstPresent` | overpass_weahter.py:74-80 | The if/elif chain of `BaseName` gives the value of the highest-priority tag among `name:ja`, `name` and `name:en` that the node carries. With none of them it gives `"N/A"`. |
| `NodeName.OperatorOf` | overpass_weahter.py:82-84 | The operator is empty exactly when the `operator` tag is absent or holds the empty string. Otherwise it is that tag's value. |
| `NodeName.DisplayName` | overpass_weahter.py:82-89 | The display name always begins with the base name. If the operator tag is absent or empty, it is exactly the base name. Otherwise the rest of the name is `"(" + operator + ")"`. |
| `NodeName.BaseNamePriority` | overpass_weahter.py:74-80 | `name:ja` wins whatever `name` and `name:en` hold. `name` is used only when `name:ja` is absent. `name:en` is used only when both others are absent. With no name tag the result is `"N/A"`. |
| `NodeName.DisplayNameReadsOnlyItsTags` | overpass_weahter.py:73-89 | The display name is a function of the `name:ja`, `name`, `name:en` and `operator` tags alone. Two tag maps that agree on those four give the same name. |
| `NodeName.DisplayNameExamples` | overpass_weahter.py:73-89 | Examples: `name=Shop, operator=ACME` gives `Shop(ACME)`. No tags gives `N/A`. An empty operator adds nothing. An operator alone gives `N/A(ACME)`. `name` beats `name:en`, and `name:ja` beats both. |
| `NodesWeather.EnrichNodes` | overpass_weahter.py:96-123 | The loop's result equals the reference `Enrich`. It succeeds exactly when every node's fetch succeeds. On success it has one record per node, in input order, built from that node and that node's payload. |
| `NodesWeather.RecordOf` | overpass_weahter.py:106-115 | The record built for a node carries the node's id, latitude and longitude unchanged, the node's resolved display name, and the given weather payload. |
| `NodesWeather.FetchFor` | overpass_weahter.py:103 | The weather call for a node passes the API key and that node's own latitude and longitude, together with the call's position in the run. It has no contract of its own. Its result is whatever `fetch` returns. |
| `NodesWeather.Enrich` | overpass_weahter.py:96-123 | Reference meaning of the loop, defined on the processed prefix. A successful result has exactly one record per node. |
| `NodesWeather.EnrichSucceedsIff` | overpass_weahter.py:98-103 | The pipeline succeeds if and only if every node's weather call returns. One raised error anywhere aborts the run. |
| `NodesWeather.EnrichRecords` | overpass_weahter.py:96-116 | A successful run has exactly as many records as nodes. Record `i` has node `i`'s id, latitude and longitude, its resolved display name, and the payload of the weather call for node `i`. |
| `NodesWeather.EnrichFailsAtFirst` | overpass_weahter.py:98-103 | A failed run carries the error of the first node whose weather call fails. Every earlier node's call returned. |
| `NodesWeather.EnrichPrefixFails` | overpass_weahter.py:98-103 | Once the nodes processed so far have failed, processing more nodes fails with the same error. No later node can turn the run into a partial result. |
| `NodesWeather.EnrichExamples` | overpass_weahter.py:96-116 | Example: a one-node export named Tokyo with a clear-sky payload gives the single record `{osm: {1, Tokyo, 35.0, 139.0}, Clear}`. Example: a three-node run whose second weather call fails returns that error and no list. |

## Left out

- Overpass query (`_overpass_nodes_from_server`): a foreign network client. The node sequence is an input of the model.
- Reading the cached export (`_overpass_nodes_from_file`, `json.load`, the `elements` key): file I/O. The node sequence is an input of the model.
- The OpenWeatherMap HTTP call (`_openweathermap_weather`): URL formatting, `urlopen` and JSON parsing are network I/O. They are the `fetch` parameter, whose payload and error types are opaque.
- `NodesWeather.FetchFor`, `fetch`: a weather call is modelled as a fixed function of the call's position in the run, the API key and the coordinates. The real call returns the weather at the time of the call and may fail because of the requests before it (the free plan allows 60 per minute). The model captures this only through the position argument. It has no clock, no request counter and no rate limit of its own. Within one run every property holds per call.
- Swapping the process-wide HTTPS context before the loop and restoring it after. Turning certificate checks off decides whether a certificate failure makes a weather call raise. In the model that effect is part of `fetch`, whose `Result` may be `Err` for any call. In the source the restore is skipped when a fetch raises, because there is no `finally`. The model does not capture this.
- `time.sleep(interval)` after each node, and with it the interval parameter. The model assumes a non-negative numeric interval. With a negative interval `time.sleep` raises `ValueError` right after the first node's fetch and append, so every non-empty run aborts. An interval that is not a number raises `TypeError` at the same point. An empty node list still returns `[]`. The model has no interval, so `EnrichNodes` returns `Ok` in those cases.
- The `AttrDict` wrapping and the api/file mode flag: an attribute-access adapter. One `Node` datatype stands for both kinds of node. An exported element that lacks `id`, `lat`, `lon` or `tags` raises in the source. The model's `Node` always has all four, so that error is not modelled.
- Floating-point coordinates: they are only copied, so they are the type parameter `L`.
- The public entry points `weathers_with_overpass_api` and `weathers_with_overpass_file`: they only chain a node source to the loop.
- Determinism and idempotence of the pipeline: `Enrich` is a function of the nodes, the key and `fetch`, so equal inputs give equal outputs by construction. No lemma states it separately.
