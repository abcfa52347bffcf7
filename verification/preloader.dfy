/** The image preloader: a PENDING / LOADING / RESOLVED / REJECTED machine that
    counts image load and error notifications and settles one promise. */
module ImagePreloader {

  datatype State = Pending | Loading | Resolved | Rejected

  /** The preloader's deferred: settled at most once, later settlements are ignored. */
  datatype Settlement = Unsettled | Fulfilled(locations: seq<string>) | Failed(location: string)

  datatype Preloader = Preloader(
    imageLocations: seq<string>,
    imageCount: nat,
    loadCount: nat,
    errorCount: nat,
    state: State,
    promise: Settlement)

  /** A notification from one image element. */
  datatype ImageEvent = Loaded(location: string) | Errored(location: string)

  function Resolve(d: Settlement, locations: seq<string>): (r: Settlement)
    ensures d.Unsettled? ==> r == Fulfilled(locations)
    ensures !d.Unsettled? ==> r == d
  {
    if d.Unsettled? then Fulfilled(locations) else d
  }

  function Reject(d: Settlement, location: string): (r: Settlement)
    ensures d.Unsettled? ==> r == Failed(location)
    ensures !d.Unsettled? ==> r == d
  {
    if d.Unsettled? then Failed(location) else d
  }

  /** The constructor. */
  function New(imageLocations: seq<string>): (p: Preloader)
    ensures p.state == Pending && p.promise == Unsettled
    ensures p.loadCount == 0 && p.errorCount == 0
    ensures p.imageCount == |p.imageLocations| && p.imageLocations == imageLocations
  {
    Preloader(imageLocations, |imageLocations|, 0, 0, Pending, Unsettled)
  }

  predicate IsInitiated(p: Preloader) {
    p.state != Pending
  }

  predicate IsRejected(p: Preloader) {
    p.state == Rejected
  }

  predicate IsResolved(p: Preloader) {
    p.state == Resolved
  }

  /** `load`: the first call starts loading every image (the returned
      locations are the image requests issued, in order); any later call
      returns without changing anything. */
  function Load(p: Preloader): (r: (Preloader, seq<string>))
    requires p.imageCount == |p.imageLocations|
    ensures p.state == Pending ==> r.0 == p.(state := Loading) && r.1 == p.imageLocations
    ensures p.state != Pending ==> r.0 == p && r.1 == []
  {
    if IsInitiated(p) then (p, [])
    else (p.(state := Loading), Requests(p.imageLocations, 0))
  }

  /** The `loadImageLocation` calls of the loop in `load`, from index `i` on. */
  function Requests(locations: seq<string>, i: nat): (r: seq<string>)
    requires i <= |locations|
    ensures r == locations[i..]
    decreases |locations| - i
  {
    if i == |locations| then [] else [locations[i]] + Requests(locations, i + 1)
  }

  /** `handleImageError`: count the error; the first one rejects. */
  function HandleImageError(p: Preloader, location: string): (r: Preloader)
    ensures r.errorCount == p.errorCount + 1
    ensures r.loadCount == p.loadCount && r.imageCount == p.imageCount
    ensures r.imageLocations == p.imageLocations
    ensures r.state == Rejected
    ensures p.state == Rejected ==> r.promise == p.promise
    ensures p.promise == Unsettled && p.state != Rejected ==> r.promise == Failed(location)
  {
    var counted := p.(errorCount := p.errorCount + 1);
    if IsRejected(counted) then counted
    else counted.(state := Rejected, promise := Reject(counted.promise, location))
  }

  /** `handleImageLoad`: count the load; once every image has loaded, resolve
      (ignored after a rejection). */
  function HandleImageLoad(p: Preloader, location: string): (r: Preloader)
    ensures r.loadCount == p.loadCount + 1
    ensures r.errorCount == p.errorCount && r.imageCount == p.imageCount
    ensures r.imageLocations == p.imageLocations
    ensures p.state == Rejected ==> r == p.(loadCount := p.loadCount + 1)
    ensures p.state != Rejected && r.loadCount == r.imageCount ==> r.state == Resolved
    ensures r.loadCount != r.imageCount ==> r.state == p.state && r.promise == p.promise
  {
    var counted := p.(loadCount := p.loadCount + 1);
    if IsRejected(counted) then counted
    else if counted.loadCount == counted.imageCount then
      counted.(state := Resolved, promise := Resolve(counted.promise, counted.imageLocations))
    else counted
  }

  function Handle(p: Preloader, e: ImageEvent): Preloader {
    match e
    case Loaded(l) => HandleImageLoad(p, l)
    case Errored(l) => HandleImageError(p, l)
  }

  /** Deliver a sequence of image notifications in order. */
  function Deliver(p: Preloader, events: seq<ImageEvent>): Preloader
    decreases |events|
  {
    if |events| == 0 then p else Deliver(Handle(p, events[0]), events[1..])
  }

  /** The static `preloadImages`: construct, then load. */
  function PreloadImages(imageLocations: seq<string>): (r: (Preloader, seq<string>))
    ensures r.0.state == Loading && r.0.loadCount == 0 && r.0.errorCount == 0
    ensures r.0.imageCount == |imageLocations| && r.0.promise == Unsettled
    ensures r.1 == imageLocations
  {
    Load(New(imageLocations))
  }

  function CountLoaded(events: seq<ImageEvent>): nat {
    if |events| == 0 then 0
    else (if events[0].Loaded? then 1 else 0) + CountLoaded(events[1..])
  }

  function CountErrored(events: seq<ImageEvent>): nat {
    if |events| == 0 then 0
    else (if events[0].Errored? then 1 else 0) + CountErrored(events[1..])
  }

  /** Number of load notifications that arrive before the first error. */
  function LoadsBeforeError(events: seq<ImageEvent>): nat {
    if |events| == 0 || events[0].Errored? then 0
    else 1 + LoadsBeforeError(events[1..])
  }

  /** `load` is idempotent: a second call changes nothing and issues no request. */
  lemma LoadIdempotent(p: Preloader)
    requires p.imageCount == |p.imageLocations|
    ensures Load(Load(p).0) == (Load(p).0, [])
  {
  }

  /** Nothing leaves REJECTED: neither `load` nor any notification. */
  lemma {:induction false} RejectedIsAbsorbing(p: Preloader, events: seq<ImageEvent>)
    requires p.state == Rejected
    ensures Deliver(p, events).state == Rejected
    ensures Deliver(p, events).promise == p.promise
    decreases |events|
  {
    if |events| > 0 {
      RejectedIsAbsorbing(Handle(p, events[0]), events[1..]);
    }
  }

  /** The counters count exactly the notifications delivered. */
  lemma {:induction false} CountersCount(p: Preloader, events: seq<ImageEvent>)
    ensures Deliver(p, events).loadCount == p.loadCount + CountLoaded(events)
    ensures Deliver(p, events).errorCount == p.errorCount + CountErrored(events)
    ensures Deliver(p, events).imageCount == p.imageCount
    ensures Deliver(p, events).imageLocations == p.imageLocations
    decreases |events|
  {
    if |events| > 0 {
      CountersCount(Handle(p, events[0]), events[1..]);
    }
  }

  /** From a loading preloader that has seen no error: the final state after a
      run of notifications. */
  lemma {:induction false} OutcomeFrom(p: Preloader, events: seq<ImageEvent>)
    requires p.state == Loading || p.state == Resolved
    requires p.state == Resolved <==> p.imageCount > 0 && p.loadCount >= p.imageCount
    requires p.state == Resolved <==> p.promise.Fulfilled?
    requires p.promise.Fulfilled? || p.promise.Unsettled?
    ensures var q := Deliver(p, events);
            && q.state != Pending
            && (q.state == Rejected <==> CountErrored(events) > 0)
            && (q.state == Resolved <==>
                  CountErrored(events) == 0 && q.imageCount > 0
                  && p.loadCount + CountLoaded(events) >= q.imageCount)
            && (q.promise.Fulfilled? <==>
                  q.imageCount > 0 && p.loadCount + LoadsBeforeError(events) >= q.imageCount)
            && (q.promise.Failed? <==>
                  CountErrored(events) > 0
                  && !(q.imageCount > 0 && p.loadCount + LoadsBeforeError(events) >= q.imageCount))
    decreases |events|
  {
    if |events| == 0 {
    } else {
      var p' := Handle(p, events[0]);
      var rest := events[1..];
      if events[0].Errored? {
        RejectedIsAbsorbing(p', rest);
        CountersCount(p', rest);
      } else {
        OutcomeFrom(p', rest);
      }
    }
  }

  /** The preloader as used by the app: it resolves exactly when every image
      loaded before any error, rejects on any error, and otherwise stays LOADING
      (in particular forever when there are no images at all). */
  lemma Outcome(imageLocations: seq<string>, events: seq<ImageEvent>)
    ensures var q := Deliver(PreloadImages(imageLocations).0, events);
            && (q.state == Rejected <==> CountErrored(events) > 0)
            && (q.state == Resolved <==>
                  CountErrored(events) == 0 && |imageLocations| > 0
                  && CountLoaded(events) >= |imageLocations|)
            && (q.state == Loading <==>
                  CountErrored(events) == 0
                  && (|imageLocations| == 0 || CountLoaded(events) < |imageLocations|))
            && (q.promise.Fulfilled? <==>
                  |imageLocations| > 0 && LoadsBeforeError(events) >= |imageLocations|)
            && (q.promise.Fulfilled? ==> q.promise.locations == imageLocations)
  {
    var p := PreloadImages(imageLocations).0;
    OutcomeFrom(p, events);
    CountersCount(p, events);
    FulfilledCarriesLocations(p, events);
  }

  /** A fulfilled promise always carries the full list of image locations. */
  lemma {:induction false} FulfilledCarriesLocations(p: Preloader, events: seq<ImageEvent>)
    requires p.promise.Fulfilled? ==> p.promise.locations == p.imageLocations
    ensures var q := Deliver(p, events);
            q.promise.Fulfilled? ==> q.promise.locations == p.imageLocations
    decreases |events|
  {
    if |events| > 0 {
      FulfilledCarriesLocations(Handle(p, events[0]), events[1..]);
    }
  }

  /** With no images at all, the preloader loads, issues no request and never
      resolves. */
  lemma EmptyListNeverResolves(events: seq<ImageEvent>)
    ensures PreloadImages([]).1 == []
    ensures Deliver(PreloadImages([]).0, events).state != Resolved
    ensures CountErrored(events) == 0 ==> Deliver(PreloadImages([]).0, events).state == Loading
  {
    Outcome([], events);
  }
}
