# podstats core, modelled in Dafny

podstats follows pods of one Kubernetes namespace through a watch stream
and polls their metrics through a list call. It is built to keep the
latest merged reading per metric key in a table and to serve that table
over HTTP as plain text, one `key value` line per entry. As written,
though, nothing is ever sent to the table: the poller's send
(cmd/podstats/main.go:123) is commented out and the watcher only prints
what it converts (cmd/podstats/main.go:177). So the table stays empty
and the handler always serves an empty body. This project models the
deterministic logic of `cmd/podstats/main.go` and proves its properties:

- `Readings` — `MetricType` (a plain integer with the named values
  `Counter` = 1 and `Instant` = 2), the `Reading` record and its merge
  `Accept`, and `Folded`, the left fold of `Accept` that a table stores
  for one key.
- `Aggregation` — the table. `Update` and `Table` are the
  specification; `MetricsHolder` is the object of the source, with its
  `lines` map updated in place by the consumer loop (`Receive`,
  `Consume`) and read by the HTTP handler (`Handle`).
- `Exposition` — the handler's scrape body, and `render`, the unused
  label-rich line `{k="v", ...} value time`, with the `%d` timestamp
  written out and proved to read back.
- `Acquisition` — the watch reconnector of `NewWatcher` and the list
  poller of `ShovelList`. Both run as sequential loops over a finite
  script of what the outside world does. For the watcher, each session
  is a failed connection or a stream of bookmark and data events that
  ends by a peer close or by the closer. For the poller, each wake-up is
  a tick with what listing returned, or the closer's signal. The loops
  return what is observable: the watch calls and sleeps, the list
  calls, the bookmark, what is printed, and what reaches the sink.

Modelling choices:

- Float values are `real`.
- The `%f` formatter is a function parameter `format: real -> string`.
- Go map iteration order is an explicit `order: seq<string>` that lists
  each key once (`Enumerates`).
- Label maps are sequences of pairs in their iteration order.
- The metric name passed to `render` is accepted and, as in the source,
  never used: `Rendered` does not take it.

The model follows the code as written, including where that departs from
what its names and comments suggest:

- The watcher sleeps after every session. This includes the session that
  ends with the closer: it sleeps once more before leaving the loop.
- A data event whose conversion fails is still printed, as the nil
  object.
- The watcher never forwards a converted object to the sink; it only
  prints it.
- The list poller prints what it lists even when the call reported an
  error. It never forwards anything to the table.
- The closer is only received while a stream is open, because its send
  blocks until the watcher's `select` takes it. So a `Shutdown` can only
  end a `Stream` session.
- In the source, the inner loop's `open` variable is shadowed inside the
  `select`, so that loop is left only by `break W`. The model leaves it
  by setting its own `open` to false.

## Model

| member | source | states |
|---|---|---|
| `Readings.Reading.Accept` | cmd/podstats/main.go:46-56 | a Counter reading adds its value and takes its time; an Instant reading replaces value and time; any other type leaves the stored reading unchanged; key and type are always kept |
| `Readings.FoldedIdentity` | cmd/podstats/main.go:47 | the stored reading for a key keeps the key and type of the first submission, whatever follows |
| `Readings.FoldedIgnoresUnknown` | cmd/podstats/main.go:48-55 | readings whose type is neither Counter nor Instant never change the stored reading |
| `Readings.FoldedValueAccumulates` | cmd/podstats/main.go:48-50 | with no Instant after the first reading, the stored value is the first value plus every later Counter value |
| `Readings.FoldedValueAfterInstant` | cmd/podstats/main.go:48-53 | after the last Instant reading, the stored value is its value plus the later Counter values; what came before it is discarded |
| `Readings.FoldedTime` | cmd/podstats/main.go:48-53 | the stored time is that of the last Counter or Instant reading after the first |
| `Aggregation.Update` | cmd/podstats/main.go:77-81 | an absent key gets the reading verbatim; a present key gets the stored reading's `Accept` of it; every other key is unchanged; no key is removed |
| `Aggregation.TableIsFold` | cmd/podstats/main.go:70-83 | a key is in the table exactly when something was submitted for it, and it then holds the left fold of `Accept` over that key's submissions in order, the first taken verbatim |
| `Aggregation.StoredUnderOwnKey` | cmd/podstats/main.go:77-81 | every entry's reading carries the key it is stored under |
| `Aggregation.TableGrows` | cmd/podstats/main.go:77-81 | later submissions never remove a key |
| `Aggregation.MetricsHolder.constructor` | cmd/podstats/main.go:65-69 | `NewMetrics` starts with an empty table |
| `Aggregation.MetricsHolder.Receive` | cmd/podstats/main.go:77-81 | one consumer step sets `lines` to `Update` of the old `lines` and the reading, and keeps `lines` equal to the table of everything received |
| `Aggregation.MetricsHolder.Consume` | cmd/podstats/main.go:70-83 | the consumer loop receives the readings in order; afterwards `lines` is the table of everything received |
| `Aggregation.MetricsHolder.Handle` | cmd/podstats/main.go:93-101 | the handler body is the concatenation, in iteration order, of one `key + " " + format(value) + "\n"` line per entry |
| `Exposition.EnumerationSize` | cmd/podstats/main.go:95 | a map iteration order visits exactly as many keys as the map has |
| `Exposition.EmptyTableEmptyBody` | cmd/podstats/main.go:95-100 | an empty table yields an empty body |
| `Exposition.BodyLineCount` | cmd/podstats/main.go:95-100 | when keys and formatted values hold no line break, the body holds one line break per visited entry |
| `Exposition.HandlerLineCount` | cmd/podstats/main.go:95-100 | over the whole table, the body holds exactly as many lines as the table has entries |
| `Exposition.Render` | cmd/podstats/main.go:353-376 | `render` returns `"{" + join(", ", [k + "=\"" + v + "\""]) + "} " + value + " " + decimal(time)` over every pair of every label map in order; the name is not used |
| `Exposition.RenderStep` | cmd/podstats/main.go:359-367 | the `first` flag puts `, ` before every label but the first |
| `Exposition.PairsPosition` | cmd/podstats/main.go:357-358 | the j-th pair of the m-th label map sits in the joint list right after all pairs of the maps before it |
| `Exposition.PairsLength` | cmd/podstats/main.go:357-358 | the joint pair list has as many pairs as all label maps together |
| `Exposition.RenderedWithoutLabels` | cmd/podstats/main.go:355-373 | with no labels the result is `"{} " + value + " " + decimal(time)` |
| `Exposition.NaturalRoundTrip` | cmd/podstats/main.go:373 | the decimal rendering of a natural number is non-empty, consists of digits only, has no leading zero unless the number is 0, and reads back as the number |
| `Exposition.DecimalRoundTrip` | cmd/podstats/main.go:373 | the `%d` rendering of the timestamp, sign included, reads back as the timestamp |
| `Acquisition.WatchOptions` | cmd/podstats/main.go:144-147 | every watch call sets `Watch` and `AllowWatchBookmarks`; `ResourceVersion` is set, to the bookmark, exactly when the bookmark is non-empty |
| `Acquisition.ReadStream` | cmd/podstats/main.go:152-183 | a stream leaves the bookmark its bookmark events set, prints the conversion result of each data event, and ends the watcher exactly when the closer is called |
| `Acquisition.WatchTraceShape` | cmd/podstats/main.go:142-186 | per session, the watcher makes one watch call with the bookmark then in force, followed by a 2-second sleep |
| `Acquisition.NewWatcher` | cmd/podstats/main.go:139-187 | the watch loop makes calls 2k and sleeps 2k+1, uses the bookmark left by all earlier sessions in each call, stops right after the stream the closer ends (or when the script runs out), and sends nothing to the sink |
| `Acquisition.DataKeepsBookmark` | cmd/podstats/main.go:171-178 | data events never change the bookmark |
| `Acquisition.LastBookmarkWins` | cmd/podstats/main.go:163-170 | the bookmark is the converted resource version of the last bookmark event, even when its conversion reported an error |
| `Acquisition.BookmarkAcrossSessions` | cmd/podstats/main.go:140-186 | the bookmark persists across failed connections and peer closes: before each session it is what all earlier events leave, starting from empty |
| `Acquisition.ResumeFromLastBookmark` | cmd/podstats/main.go:144-148 | each reconnect asks for the resource version of the last bookmark event seen in any earlier session |
| `Acquisition.NoBookmarkNoResourceVersion` | cmd/podstats/main.go:144-147 | until a bookmark event has arrived, watch calls carry no resource version |
| `Acquisition.ShovelList` | cmd/podstats/main.go:110-128 | every tick before the closer makes one list call with `AllowWatchBookmarks` set; its items are printed whether or not an error came back; the closer ends the loop; nothing reaches the sink |

## Left out

- `main` (cmd/podstats/main.go:193-269): flag parsing, logger setup, kubeconfig loading, the response cache and `ListenAndServe` are I/O and foreign libraries.
- `PodWatcher`, `MetricsLister` and their constructors (cmd/podstats/main.go:277-344) are thin client-go wrappers. What they return (a connection that fails or a stream of events, the conversion outcome, a listing) is part of the input script.
- `usage` (cmd/podstats/main.go:346-351) depends on Go's `%s` rendering of a map.
- Goroutines, channels, `select`, the ticker and `time.Sleep` are not modelled as concurrency. Sleeps appear in the watcher's trace as `Sleep(2)` actions. The 10-second ticker period is not represented: ticks are items of the script.
- The closers (cmd/podstats/main.go:130-132, 188-190) are not modelled as functions: their unbuffered send blocks until the loop takes it, and calling one twice blocks forever. Their effect is the `Shutdown`/`Close` item of the script.
- The runtime panics of the consumer loop are not modelled; `Consume` takes a sequence of non-nil `Reading` values and ends when it runs out. The type assertion `w.(*Reading)` (cmd/podstats/main.go:73) runs before the `ok` check, so it panics once the channel is closed. It also panics on any value of another type sent on the untyped `chan interface{}`. A nil `*Reading` passes the assertion and panics at cmd/podstats/main.go:77, where `reading.Key` is read.
- The unsynchronised read of `lines` by the handler while the consumer writes it is a data race. It has no sequential counterpart.
- Logging and printing are not output. What the loops print is returned as a sequence so that it can be told apart from the sink, which stays empty.
- Float arithmetic and `%f` formatting: `Value` is a real, so `Accept` adds without rounding, and the formatter is a parameter.
- Errors from the HTTP `ResponseWriter.Write` calls are ignored by the source and are not modelled.
- The watch script is finite. An unending run with no shutdown is represented by its finite prefixes.
