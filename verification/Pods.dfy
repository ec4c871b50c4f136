/**
 Stopping and starting the containers of a pod. A stopped container runs the pause image, and
 the image it had is kept in an annotation. Over any run of stops and starts every container
 keeps the image that it has or will have again.
 */
module Pods {
  import opened Strings

  datatype Pod = Pod(images: seq<string>, annotations: map<string, string>)

  /** The annotation for a container. */
  function Key(i: nat): string {
    "paused" + Decimal(i)
  }

  /** Different containers have different annotations. */
  lemma KeysDistinct(i: nat, j: nat)
    requires Key(i) == Key(j)
    ensures i == j
  {
    assert Key(i)[6..] == Decimal(i) && Key(j)[6..] == Decimal(j);
    NumberDecimal(i);
    NumberDecimal(j);
  }

  function Saved(p: Pod, i: nat): string {
    if Key(i) in p.annotations then p.annotations[Key(i)] else ""
  }

  function StopOne(p: Pod, i: nat, check: bool, pause: string): Pod
    requires i < |p.images|
  {
    if p.images[i] == pause || !check then p
    else Pod(p.images[i := pause], p.annotations[Key(i) := p.images[i]])
  }

  function StartOne(p: Pod, i: nat, check: bool, pause: string): Pod
    requires i < |p.images|
  {
    if p.images[i] != pause || !check then p
    else Pod(p.images[i := Saved(p, i)], p.annotations - {Key(i)})
  }

  function SetOne(p: Pod, i: nat, image: string): Pod
    requires i < |p.images|
  {
    if image == "" then p else p.(images := p.images[i := image])
  }

  /** The containers from `i` on. */
  function StopFrom(p: Pod, i: nat, checks: seq<bool>, pause: string): (r: Pod)
    requires i <= |checks| <= |p.images|
    ensures |r.images| == |p.images|
    decreases |checks| - i
  {
    if i == |checks| then p else StopFrom(StopOne(p, i, checks[i], pause), i + 1, checks, pause)
  }

  function StartFrom(p: Pod, i: nat, checks: seq<bool>, pause: string): (r: Pod)
    requires i <= |checks| <= |p.images|
    ensures |r.images| == |p.images|
    decreases |checks| - i
  {
    if i == |checks| then p else StartFrom(StartOne(p, i, checks[i], pause), i + 1, checks, pause)
  }

  function SetFrom(p: Pod, i: nat, images: seq<string>): (r: Pod)
    requires i <= |images| <= |p.images|
    ensures |r.images| == |p.images|
    decreases |images| - i
  {
    if i == |images| then p else SetFrom(SetOne(p, i, images[i]), i + 1, images)
  }

  // ---------------------------------------------------------------- the image of a container

  /** The image that a container has, or had before it was stopped. */
  function Effective(p: Pod, i: nat, pause: string): string
    requires i < |p.images|
  {
    if p.images[i] != pause then p.images[i] else Saved(p, i)
  }

  /** Every stopped container has an image to start with. */
  predicate Restartable(p: Pod, pause: string) {
    forall i | 0 <= i < |p.images| && p.images[i] == pause :: Key(i) in p.annotations && p.annotations[Key(i)] != pause
  }

  predicate SameImages(p: Pod, q: Pod, pause: string) {
    |p.images| == |q.images| && forall i | 0 <= i < |p.images| :: Effective(q, i, pause) == Effective(p, i, pause)
  }

  lemma SameTrans(p: Pod, q: Pod, r: Pod, pause: string)
    requires SameImages(p, q, pause) && SameImages(q, r, pause)
    ensures SameImages(p, r, pause)
  {
  }

  lemma StopOneKeeps(p: Pod, i: nat, check: bool, pause: string)
    requires i < |p.images| && Restartable(p, pause)
    ensures var q := StopOne(p, i, check, pause); Restartable(q, pause) && SameImages(p, q, pause)
  {
    var q := StopOne(p, i, check, pause);
    forall j | 0 <= j < |p.images|
      ensures Effective(q, j, pause) == Effective(p, j, pause)
      ensures q.images[j] == pause ==> Key(j) in q.annotations && q.annotations[Key(j)] != pause
    {
      if Key(i) == Key(j) { KeysDistinct(i, j); }
    }
  }

  lemma StartOneKeeps(p: Pod, i: nat, check: bool, pause: string)
    requires i < |p.images| && Restartable(p, pause)
    ensures var q := StartOne(p, i, check, pause); Restartable(q, pause) && SameImages(p, q, pause)
  {
    var q := StartOne(p, i, check, pause);
    forall j | 0 <= j < |p.images|
      ensures Effective(q, j, pause) == Effective(p, j, pause)
      ensures q.images[j] == pause ==> Key(j) in q.annotations && q.annotations[Key(j)] != pause
    {
      if Key(i) == Key(j) { KeysDistinct(i, j); }
    }
  }

  lemma {:induction false} StopKeeps(p: Pod, i: nat, checks: seq<bool>, pause: string)
    requires i <= |checks| <= |p.images| && Restartable(p, pause)
    ensures var q := StopFrom(p, i, checks, pause); Restartable(q, pause) && SameImages(p, q, pause)
    decreases |checks| - i
  {
    hide StopOne;
    if i < |checks| {
      var q := StopOne(p, i, checks[i], pause);
      StopOneKeeps(p, i, checks[i], pause);
      StopKeeps(q, i + 1, checks, pause);
      SameTrans(p, q, StopFrom(q, i + 1, checks, pause), pause);
    }
  }

  lemma {:induction false} StartKeeps(p: Pod, i: nat, checks: seq<bool>, pause: string)
    requires i <= |checks| <= |p.images| && Restartable(p, pause)
    ensures var q := StartFrom(p, i, checks, pause); Restartable(q, pause) && SameImages(p, q, pause)
    decreases |checks| - i
  {
    hide StartOne;
    if i < |checks| {
      var q := StartOne(p, i, checks[i], pause);
      StartOneKeeps(p, i, checks[i], pause);
      StartKeeps(q, i + 1, checks, pause);
      SameTrans(p, q, StartFrom(q, i + 1, checks, pause), pause);
    }
  }

  /** Which containers run afterwards: those checked are stopped, or started, and no others change. */
  lemma {:induction false} StopStops(p: Pod, i: nat, checks: seq<bool>, pause: string, j: nat)
    requires i <= |checks| <= |p.images| && j < |p.images|
    ensures StopFrom(p, i, checks, pause).images[j] == if i <= j < |checks| && checks[j] then pause else p.images[j]
    decreases |checks| - i
  {
    if i < |checks| { StopStops(StopOne(p, i, checks[i], pause), i + 1, checks, pause, j); }
  }

  lemma {:induction false} StartStarts(p: Pod, i: nat, checks: seq<bool>, pause: string, j: nat)
    requires i <= |checks| <= |p.images| && j < |p.images| && Restartable(p, pause)
    ensures StartFrom(p, i, checks, pause).images[j] ==
            if i <= j < |checks| && checks[j] then Effective(p, j, pause) else p.images[j]
    decreases |checks| - i
  {
    if i < |checks| {
      StartOneKeeps(p, i, checks[i], pause);
      StartStarts(StartOne(p, i, checks[i], pause), i + 1, checks, pause, j);
    }
  }

  /** Setting images changes exactly the containers that are named. */
  lemma {:induction false} SetSets(p: Pod, i: nat, images: seq<string>, pause: string, j: nat)
    requires i <= |images| <= |p.images| && j < |p.images| && forall k | i <= k < |images| :: images[k] != pause
    ensures Effective(SetFrom(p, i, images), j, pause) ==
            if i <= j < |images| && images[j] != "" then images[j] else Effective(p, j, pause)
    ensures Restartable(p, pause) ==> Restartable(SetFrom(p, i, images), pause)
    decreases |images| - i
  {
    if i < |images| { SetSets(SetOne(p, i, images[i]), i + 1, images, pause, j); }
  }

  // ---------------------------------------------------------------- runs

  datatype Action = Stop(checks: seq<bool>) | Start(checks: seq<bool>) | Restart(checks: seq<bool>)

  function Perform(p: Pod, a: Action, pause: string): (r: Pod)
    requires |a.checks| <= |p.images|
    ensures |r.images| == |p.images|
  {
    match a
    case Stop(checks) => StopFrom(p, 0, checks, pause)
    case Start(checks) => StartFrom(p, 0, checks, pause)
    case Restart(checks) => StartFrom(StopFrom(p, 0, checks, pause), 0, checks, pause)
  }

  function Run(p: Pod, actions: seq<Action>, pause: string): (r: Pod)
    requires forall a | a in actions :: |a.checks| <= |p.images|
    ensures |r.images| == |p.images|
    decreases |actions|
  {
    if actions == [] then p else Run(Perform(p, actions[0], pause), actions[1..], pause)
  }

  lemma PerformKeeps(p: Pod, a: Action, pause: string)
    requires |a.checks| <= |p.images| && Restartable(p, pause)
    ensures var q := Perform(p, a, pause); Restartable(q, pause) && SameImages(p, q, pause)
  {
    hide Restartable, SameImages, StopFrom, StartFrom;
    match a {
      case Stop(checks) => StopKeeps(p, 0, checks, pause);
      case Start(checks) => StartKeeps(p, 0, checks, pause);
      case Restart(checks) =>
        StopKeeps(p, 0, checks, pause);
        var q := StopFrom(p, 0, checks, pause);
        StartKeeps(q, 0, checks, pause);
        SameTrans(p, q, StartFrom(q, 0, checks, pause), pause);
    }
  }

  /** What runs after an action: a checked container is paused, or runs its own image; the others as before. */
  lemma PerformExact(p: Pod, a: Action, pause: string, j: nat)
    requires |a.checks| <= |p.images| && Restartable(p, pause) && j < |p.images|
    ensures Perform(p, a, pause).images[j] ==
            if j >= |a.checks| || !a.checks[j] then p.images[j] else if a.Stop? then pause else Effective(p, j, pause)
  {
    hide Restartable, StopFrom, StartFrom, Effective;
    var q := StopFrom(p, 0, a.checks, pause);
    StopStops(p, 0, a.checks, pause, j);
    StopKeeps(p, 0, a.checks, pause);
    StartStarts(p, 0, a.checks, pause, j);
    StartStarts(q, 0, a.checks, pause, j);
  }

  /** Any run of stops, starts and restarts, of any containers, keeps every image. */
  lemma {:induction false} RunKeeps(p: Pod, actions: seq<Action>, pause: string)
    requires Restartable(p, pause) && forall a | a in actions :: |a.checks| <= |p.images|
    ensures var q := Run(p, actions, pause); Restartable(q, pause) && SameImages(p, q, pause)
    decreases |actions|
  {
    hide Restartable, SameImages, Perform;
    if actions == [] {
      SameSelf(p, pause);
    } else {
      assert actions[0] in actions;
      var q := Perform(p, actions[0], pause);
      PerformKeeps(p, actions[0], pause);
      RunKeeps(q, actions[1..], pause);
      SameTrans(p, q, Run(q, actions[1..], pause), pause);
    }
  }

  lemma SameSelf(p: Pod, pause: string)
    ensures SameImages(p, p, pause)
  {
  }

  // ---------------------------------------------------------------- the loops

  class PodObject {
    var images: seq<string>
    var annotations: map<string, string>
    const pause: string

    constructor (images: seq<string>, annotations: map<string, string>, pause: string)
      ensures State() == Pod(images, annotations) && this.pause == pause
    {
      this.images, this.annotations, this.pause := images, annotations, pause;
    }

    ghost function State(): Pod
      reads this
    {
      Pod(images, annotations)
    }

    method StopContainers(checks: seq<bool>)
      requires |checks| <= |images|
      modifies this
      ensures State() == StopFrom(old(State()), 0, checks, pause)
    {
      for i := 0 to |checks|
        invariant |checks| <= |images|
        invariant StopFrom(State(), i, checks, pause) == StopFrom(old(State()), 0, checks, pause)
      {
        if images[i] != pause && checks[i] {
          annotations := annotations[Key(i) := images[i]];
          images := images[i := pause];
        }
      }
    }

    method StartContainers(checks: seq<bool>)
      requires |checks| <= |images|
      modifies this
      ensures State() == StartFrom(old(State()), 0, checks, pause)
    {
      for i := 0 to |checks|
        invariant |checks| <= |images|
        invariant StartFrom(State(), i, checks, pause) == StartFrom(old(State()), 0, checks, pause)
      {
        if images[i] == pause && checks[i] {
          images := images[i := if Key(i) in annotations then annotations[Key(i)] else ""];
          annotations := annotations - {Key(i)};
        }
      }
    }

    method SetImages(fullImages: seq<string>)
      requires |fullImages| <= |images|
      modifies this
      ensures State() == SetFrom(old(State()), 0, fullImages)
    {
      for i := 0 to |fullImages|
        invariant |fullImages| <= |images| && SetFrom(State(), i, fullImages) == SetFrom(old(State()), 0, fullImages)
      {
        if fullImages[i] != "" {
          images := images[i := fullImages[i]];
        }
      }
    }
  }
}
