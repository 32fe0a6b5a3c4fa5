/**
 * The process-wide liveness registry (`classTokens`): for each class name,
 * how many instances of that class are alive. Construction adds one,
 * destruction takes one away but never below zero, and a class with more
 * than one live instance is "dirty": its write-throughs are refused.
 */
module Registry {

  type Tokens = map<string, int>

  /** `classTokens[cls] ?? 0`: a class never counted has no live instance. */
  function Count(tokens: Tokens, cls: string): (n: int)
    ensures cls !in tokens ==> n == 0
    ensures NonNegative(tokens) ==> n >= 0
  {
    if cls in tokens then tokens[cls] else 0
  }

  /** `containsClass`: at least one instance of `cls` is alive. */
  predicate Contains(tokens: Tokens, cls: string)
  {
    Count(tokens, cls) > 0
  }

  /** `isDirtyClass`: two or more instances of `cls` are alive at once. */
  predicate IsDirty(tokens: Tokens, cls: string)
  {
    Count(tokens, cls) > 1
  }

  /** No count is negative. */
  ghost predicate NonNegative(tokens: Tokens)
  {
    forall c :: c in tokens ==> tokens[c] >= 0
  }

  /** `appendClass`: add one to a counted class, or start it at one. */
  function Appended(tokens: Tokens, cls: string): (r: Tokens)
    ensures Count(r, cls) == if Count(tokens, cls) > 0 then Count(tokens, cls) + 1 else 1
    ensures forall c :: c != cls ==> Count(r, c) == Count(tokens, c)
  {
    if Contains(tokens, cls) then tokens[cls := tokens[cls] + 1] else tokens[cls := 1]
  }

  /** `removeClass`: take one away only while the count is positive. */
  function Removed(tokens: Tokens, cls: string): (r: Tokens)
    ensures Count(r, cls) == if Count(tokens, cls) > 0 then Count(tokens, cls) - 1 else Count(tokens, cls)
    ensures forall c :: c != cls ==> Count(r, c) == Count(tokens, c)
  {
    if Contains(tokens, cls) then tokens[cls := tokens[cls] - 1] else tokens
  }

  /** Construction adds exactly one live instance of its class and touches no other class. */
  lemma AppendedCounts(tokens: Tokens, cls: string)
    requires NonNegative(tokens)
    ensures NonNegative(Appended(tokens, cls))
    ensures Count(Appended(tokens, cls), cls) == Count(tokens, cls) + 1
    ensures forall c :: c != cls ==> Count(Appended(tokens, cls), c) == Count(tokens, c)
  {
  }

  /** Destruction takes one live instance away, never going below zero, and touches no other class. */
  lemma RemovedCounts(tokens: Tokens, cls: string)
    requires NonNegative(tokens)
    ensures NonNegative(Removed(tokens, cls))
    ensures Count(Removed(tokens, cls), cls) == if Count(tokens, cls) > 0 then Count(tokens, cls) - 1 else 0
    ensures forall c :: c != cls ==> Count(Removed(tokens, cls), c) == Count(tokens, c)
  {
  }

  /** Constructing and then destroying an instance leaves every count as it was. */
  lemma AppendRemoveRoundTrip(tokens: Tokens, cls: string)
    requires NonNegative(tokens)
    ensures forall c :: Count(Removed(Appended(tokens, cls), cls), c) == Count(tokens, c)
  {
    AppendedCounts(tokens, cls);
    RemovedCounts(Appended(tokens, cls), cls);
  }

  /** A lifecycle event of one instance of a class. */
  datatype Event = Created | Released

  /** The registry after a history of constructions and destructions of instances of `cls`. */
  function Replay(tokens: Tokens, cls: string, history: seq<Event>): Tokens
  {
    if history == [] then tokens
    else
      var before := Replay(tokens, cls, history[..|history| - 1]);
      if history[|history| - 1] == Created then Appended(before, cls) else Removed(before, cls)
  }

  /** How many instances a history leaves alive: constructions minus destructions. */
  function Live(history: seq<Event>): int
  {
    if history == [] then 0
    else Live(history[..|history| - 1]) + (if history[|history| - 1] == Created then 1 else -1)
  }

  /** Every destruction in the history destroys an instance that is alive. */
  predicate WellFormed(history: seq<Event>)
  {
    forall n :: 0 <= n <= |history| ==> Live(history[..n]) >= 0
  }

  /**
   * Starting from a class with no live instance, the registry's count is the
   * number of live instances, so the class is dirty exactly when two or more
   * of its instances are alive at once.
   */
  lemma {:induction false} ReplayCountsLive(tokens: Tokens, cls: string, history: seq<Event>)
    requires NonNegative(tokens) && Count(tokens, cls) == 0
    requires WellFormed(history)
    ensures NonNegative(Replay(tokens, cls, history))
    ensures Count(Replay(tokens, cls, history), cls) == Live(history)
    ensures IsDirty(Replay(tokens, cls, history), cls) <==> Live(history) > 1
  {
    if history != [] {
      var init := history[..|history| - 1];
      assert history[..|history|] == history;
      assert forall n :: 0 <= n <= |init| ==> init[..n] == history[..n];
      ReplayCountsLive(tokens, cls, init);
      var before := Replay(tokens, cls, init);
      if history[|history| - 1] == Created {
        AppendedCounts(before, cls);
      } else {
        RemovedCounts(before, cls);
      }
    }
  }

  /** The registry itself: one map shared by every bound object, updated in place. */
  class ClassRegistry {
    var tokens: Tokens

    ghost predicate Valid()
      reads this
    {
      NonNegative(tokens)
    }

    constructor ()
      ensures Valid() && tokens == map[]
    {
      tokens := map[];
    }

    /** `containsClass` */
    function ContainsClass(cls: string): (live: bool)
      reads this
      ensures live <==> cls in tokens && tokens[cls] > 0
    {
      Contains(tokens, cls)
    }

    /** `isDirtyClass` */
    function IsDirtyClass(cls: string): (dirty: bool)
      reads this
      ensures dirty <==> cls in tokens && tokens[cls] > 1
    {
      IsDirty(tokens, cls)
    }

    /** `appendClass`, run by every construction before the bindings are declared. */
    method AppendClass(cls: string)
      requires Valid()
      modifies this
      ensures Valid() && tokens == Appended(old(tokens), cls)
    {
      AppendedCounts(tokens, cls);
      if ContainsClass(cls) {
        tokens := tokens[cls := tokens[cls] + 1];
      } else {
        tokens := tokens[cls := 1];
      }
    }

    /** `removeClass`, run by every destruction after the bindings are cancelled. */
    method RemoveClass(cls: string)
      requires Valid()
      modifies this
      ensures Valid() && tokens == Removed(old(tokens), cls)
    {
      RemovedCounts(tokens, cls);
      if ContainsClass(cls) {
        tokens := tokens[cls := tokens[cls] - 1];
      }
    }
  }
}
