/** The two acquisition loops: the watch reconnector with its bookmark, and
    the list poller. Goroutines, channels, the ticker and the sleeps are
    replaced by a script of what the outside world does, consumed in order. */
module Acquisition {

  /** The fields of the API's list options that the loops set. */
  datatype ListOptions = ListOptions(Watch: bool, AllowWatchBookmarks: bool, ResourceVersion: string)

  /** A pod, reduced to the one field the watcher reads. */
  datatype Pod = Pod(ResourceVersion: string)

  /** What the watcher's conversion of a data event returned. */
  datatype Converted = Converted(pod: Pod) | ConversionError

  /** A watch event. For a bookmark, `pod` is what scheme conversion wrote
      into an empty pod (possibly nothing) and `convertFailed` whether it
      reported an error; every other event type is data. */
  datatype Event = Bookmark(pod: Pod, convertFailed: bool) | Data(obj: Converted)

  /** How a stream ended: the result channel was closed by the peer, or the
      closer was called while the watcher waited for the next event. */
  datatype EndedBy = PeerClose | Shutdown

  /** One connection attempt and, when it succeeds, the stream it got. */
  datatype Session = ConnectFailed | Stream(events: seq<Event>, endedBy: EndedBy)

  /** What the watcher does that the outside world sees. */
  datatype Action = WatchCall(options: ListOptions) | Sleep(seconds: nat)

  /** Seconds the watcher sleeps after every session. */
  const WatchBackoff: nat := 2

  predicate EndsWatch(s: Session)
  {
    s.Stream? && s.endedBy == Shutdown
  }

  /** The options of a watch call made with bookmark `bookmark`. */
  function WatchOptions(bookmark: string): (o: ListOptions)
    ensures o.Watch && o.AllowWatchBookmarks
    ensures o.ResourceVersion != "" <==> bookmark != ""
    ensures bookmark != "" ==> o.ResourceVersion == bookmark
  {
    ListOptions(Watch := true, AllowWatchBookmarks := true, ResourceVersion := bookmark)
  }

  /** The bookmark after handling `e`: a bookmark event's converted resource
      version, taken even when conversion reported an error. */
  function AfterEvent(bookmark: string, e: Event): (r: string)
  {
    match e
    case Bookmark(pod, _) => pod.ResourceVersion
    case Data(_) => bookmark
  }

  function AfterEvents(bookmark: string, events: seq<Event>): (r: string)
  {
    if events == [] then bookmark
    else AfterEvent(AfterEvents(bookmark, events[..|events| - 1]), events[|events| - 1])
  }

  function AfterSession(bookmark: string, s: Session): (r: string)
  {
    match s
    case ConnectFailed => bookmark
    case Stream(events, _) => AfterEvents(bookmark, events)
  }

  /** The bookmark when the `k`-th session starts. */
  function BookmarkBefore(script: seq<Session>, k: nat): (r: string)
    requires k <= |script|
  {
    if k == 0 then "" else AfterSession(BookmarkBefore(script, k - 1), script[k - 1])
  }

  /** The converted data objs of `events`, which the watcher prints. */
  function DataOf(events: seq<Event>): (r: seq<Converted>)
  {
    if events == [] then []
    else
      var front := DataOf(events[..|events| - 1]);
      match events[|events| - 1]
      case Data(obj) => front + [obj]
      case Bookmark(_, _) => front
  }

  function PrintedBefore(script: seq<Session>, k: nat): (r: seq<Converted>)
    requires k <= |script|
  {
    if k == 0 then []
    else
      PrintedBefore(script, k - 1) +
      match script[k - 1]
      case ConnectFailed => []
      case Stream(events, _) => DataOf(events)
  }

  /** Every event of the streams among the first `k` sessions, in order. */
  function EventsBefore(script: seq<Session>, k: nat): (r: seq<Event>)
    requires k <= |script|
  {
    if k == 0 then []
    else
      EventsBefore(script, k - 1) +
      match script[k - 1]
      case ConnectFailed => []
      case Stream(events, _) => events
  }

  /** The actions of the first `k` sessions: per session, a watch call with
      the bookmark in force, then the backoff sleep. */
  function WatchTrace(script: seq<Session>, k: nat): (r: seq<Action>)
    requires k <= |script|
  {
    if k == 0 then []
    else WatchTrace(script, k - 1) + [WatchCall(WatchOptions(BookmarkBefore(script, k - 1))), Sleep(WatchBackoff)]
  }

  lemma {:induction false} WatchTraceShape(script: seq<Session>, n: nat)
    requires n <= |script|
    ensures |WatchTrace(script, n)| == 2 * n
    ensures forall k :: 0 <= k < n ==>
              WatchTrace(script, n)[2 * k] == WatchCall(WatchOptions(BookmarkBefore(script, k))) &&
              WatchTrace(script, n)[2 * k + 1] == Sleep(WatchBackoff)
  {
    if n > 0 {
      WatchTraceShape(script, n - 1);
    }
  }

  /** The event loop of one stream (the loop labelled `W`): one event at a
      time, a bookmark event sets the bookmark, a data event is printed;
      it ends when the peer closes the stream or the closer is called. */
  method ReadStream(bookmark0: string, events: seq<Event>, endedBy: EndedBy)
    returns (bookmark: string, printed: seq<Converted>, done: bool)
    ensures bookmark == AfterEvents(bookmark0, events)
    ensures printed == DataOf(events)
    ensures done <==> endedBy == Shutdown
  {
    bookmark, printed, done := bookmark0, [], false;
    var j := 0;
    var open := true;
    while !done && open
      invariant 0 <= j <= |events|
      invariant bookmark == AfterEvents(bookmark0, events[..j])
      invariant printed == DataOf(events[..j])
      invariant done ==> j == |events| && endedBy == Shutdown
      invariant !open ==> j == |events| && endedBy == PeerClose
      decreases |events| - j, if !done && open then 1 else 0
    {
      if j < |events| {
        var e := events[j];
        match e {
          case Bookmark(pod, convertFailed) =>
            bookmark := pod.ResourceVersion;
          case Data(obj) =>
            printed := printed + [obj];
        }
        assert events[..j + 1][..j] == events[..j];
        j := j + 1;
      } else if endedBy == PeerClose {
        open := false;
      } else {
        done := true;
      }
    }
    assert events[..j] == events;
  }

  /** The watch loop. Each session makes one watch call with the current
      bookmark and ends with a sleep; a stream updates the bookmark from its
      bookmark events and prints its data events; the loop ends after the
      stream during which the closer is called, or when the script runs out.
      `attempts` is the number of sessions it went through; `sent` is what
      reached the sink. */
  method NewWatcher(script: seq<Session>)
    returns (trace: seq<Action>, bookmark: string, printed: seq<Converted>, sent: seq<Converted>,
             attempts: nat, done: bool)
    ensures attempts <= |script| && |trace| == 2 * attempts
    ensures forall k :: 0 <= k < attempts ==>
              trace[2 * k] == WatchCall(WatchOptions(BookmarkBefore(script, k))) &&
              trace[2 * k + 1] == Sleep(WatchBackoff)
    ensures forall k :: 0 <= k < attempts - 1 ==> !EndsWatch(script[k])
    ensures done <==> attempts > 0 && EndsWatch(script[attempts - 1])
    ensures !done ==> attempts == |script|
    ensures bookmark == BookmarkBefore(script, attempts)
    ensures printed == PrintedBefore(script, attempts)
    ensures sent == []
  {
    trace, bookmark, printed, sent := [], "", [], [];
    done := false;
    var i := 0;
    while !done && i < |script|
      invariant 0 <= i <= |script| && trace == WatchTrace(script, i)
      invariant forall k :: 0 <= k < i - 1 ==> !EndsWatch(script[k])
      invariant done <==> i > 0 && EndsWatch(script[i - 1])
      invariant bookmark == BookmarkBefore(script, i)
      invariant printed == PrintedBefore(script, i)
      invariant sent == []
    {
      var listOptions := ListOptions(Watch := true, AllowWatchBookmarks := true, ResourceVersion := "");
      if bookmark != "" {
        listOptions := listOptions.(ResourceVersion := bookmark);
      }
      assert listOptions == WatchOptions(BookmarkBefore(script, i));
      trace := trace + [WatchCall(listOptions)];
      match script[i] {
        case ConnectFailed =>
        case Stream(events, endedBy) =>
          var data;
          bookmark, data, done := ReadStream(bookmark, events, endedBy);
          printed := printed + data;
      }
      trace := trace + [Sleep(WatchBackoff)];
      i := i + 1;
    }
    attempts := i;
    WatchTraceShape(script, attempts);
  }

  /** Data events never change the bookmark. */
  lemma {:induction false} DataKeepsBookmark(bookmark: string, events: seq<Event>)
    requires forall i :: 0 <= i < |events| ==> events[i].Data?
    ensures AfterEvents(bookmark, events) == bookmark
  {
    if events != [] {
      DataKeepsBookmark(bookmark, events[..|events| - 1]);
    }
  }

  /** The bookmark is the resource version of the last bookmark event,
      whether or not its conversion reported an error. */
  lemma {:induction false} LastBookmarkWins(bookmark: string, events: seq<Event>, i: nat)
    requires i < |events| && events[i].Bookmark?
    requires forall j :: i < j < |events| ==> events[j].Data?
    ensures AfterEvents(bookmark, events) == events[i].pod.ResourceVersion
  {
    if i < |events| - 1 {
      LastBookmarkWins(bookmark, events[..|events| - 1], i);
    }
  }

  lemma {:induction false} AfterEventsAppend(bookmark: string, xs: seq<Event>, ys: seq<Event>)
    ensures AfterEvents(bookmark, xs + ys) == AfterEvents(AfterEvents(bookmark, xs), ys)
  {
    if ys != [] {
      AfterEventsAppend(bookmark, xs, ys[..|ys| - 1]);
      assert (xs + ys)[..|xs + ys| - 1] == xs + ys[..|ys| - 1];
    } else {
      assert xs + ys == xs;
    }
  }

  /** The bookmark carries over sessions: before the `k`-th session it is
      what all the events of the earlier streams leave, starting from "".
      Failed connections and peer closes do not reset it. */
  lemma {:induction false} BookmarkAcrossSessions(script: seq<Session>, k: nat)
    requires k <= |script|
    ensures BookmarkBefore(script, k) == AfterEvents("", EventsBefore(script, k))
  {
    if k > 0 {
      BookmarkAcrossSessions(script, k - 1);
      match script[k - 1]
      case ConnectFailed =>
        assert EventsBefore(script, k) == EventsBefore(script, k - 1);
      case Stream(events, _) =>
        AfterEventsAppend("", EventsBefore(script, k - 1), events);
    }
  }

  /** A reconnect resumes from the last bookmark seen in any earlier
      session: the `k`-th watch call asks for that resource version. */
  lemma ResumeFromLastBookmark(script: seq<Session>, k: nat, i: nat)
    requires k <= |script|
    requires i < |EventsBefore(script, k)| && EventsBefore(script, k)[i].Bookmark?
    requires forall j :: i < j < |EventsBefore(script, k)| ==> EventsBefore(script, k)[j].Data?
    ensures WatchOptions(BookmarkBefore(script, k)).ResourceVersion ==
            EventsBefore(script, k)[i].pod.ResourceVersion
  {
    BookmarkAcrossSessions(script, k);
    LastBookmarkWins("", EventsBefore(script, k), i);
  }

  /** Until a bookmark event arrives, watch calls carry no resource version. */
  lemma NoBookmarkNoResourceVersion(script: seq<Session>, k: nat)
    requires k <= |script|
    requires forall j :: 0 <= j < |EventsBefore(script, k)| ==> EventsBefore(script, k)[j].Data?
    ensures WatchOptions(BookmarkBefore(script, k)).ResourceVersion == ""
  {
    BookmarkAcrossSessions(script, k);
    DataKeepsBookmark("", EventsBefore(script, k));
  }

  // ---------------------------------------------------------------------
  // The list poller

  /** One wake-up of the poller: a tick, with what listing returned (the
      items and whether an error came with them), or the closer's signal. */
  datatype Wakeup<T> = Tick(items: seq<T>, failed: bool) | Close

  /** The options of every list call. */
  const PollOptions: ListOptions := ListOptions(Watch := false, AllowWatchBookmarks := true, ResourceVersion := "")

  /** The items of the first `k` ticks, which the poller prints. */
  function ItemsBefore<T>(script: seq<Wakeup<T>>, k: nat): (r: seq<T>)
    requires k <= |script| && forall i :: 0 <= i < k ==> script[i].Tick?
  {
    if k == 0 then [] else ItemsBefore(script, k - 1) + script[k - 1].items
  }

  /** The poll loop `ShovelList`. Every tick lists once with the same
      options and prints every item it got, error or not; the closer's
      signal ends the loop. Nothing is sent to the sink. */
  method ShovelList<T>(script: seq<Wakeup<T>>)
    returns (calls: seq<ListOptions>, printed: seq<T>, sent: seq<T>, done: bool)
    ensures |calls| <= |script|
    ensures forall i :: 0 <= i < |calls| ==> script[i].Tick? && calls[i] == PollOptions
    ensures done <==> |calls| < |script|
    ensures done ==> script[|calls|].Close?
    ensures printed == ItemsBefore(script, |calls|)
    ensures sent == []
  {
    var listOptions := ListOptions(Watch := false, AllowWatchBookmarks := true, ResourceVersion := "");
    calls, printed, sent := [], [], [];
    done := false;
    var i := 0;
    while !done && i < |script|
      invariant 0 <= |calls| <= i <= |script|
      invariant !done ==> |calls| == i
      invariant done ==> |calls| == i - 1 && script[|calls|].Close?
      invariant forall k :: 0 <= k < |calls| ==> script[k].Tick? && calls[k] == PollOptions
      invariant printed == ItemsBefore(script, |calls|)
      invariant sent == []
    {
      match script[i] {
        case Tick(list, failed) =>
        calls := calls + [listOptions];
        var j := 0;
        while j < |list|
          invariant 0 <= j <= |list|
          invariant printed == ItemsBefore(script, |calls| - 1) + list[..j]
        {
          printed := printed + [list[j]];
          assert list[..j + 1] == list[..j] + [list[j]];
          j := j + 1;
        }
        assert list[..j] == list;
        case Close =>
          done := true;
      }
      i := i + 1;
    }
  }
}
