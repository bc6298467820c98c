/** The frame-rate counter: a ring buffer of the last 100 GPU frame times,
    refreshed once per display-link tick. The frame time of a tick is given
    as a parameter, and `averageFrameTime` stands for the shown
    `averageFPSString`, which formats `1 / averageFrameTime`. */
module FpsCounter {
  const MaxSavedFrames: nat := 100

  function Min(a: int, b: int): int {
    if a < b then a else b
  }

  /** The last `MaxSavedFrames` samples of a history: the window the buffer
      should hold. */
  function Window(history: seq<real>): (w: seq<real>)
    ensures |w| == Min(|history|, MaxSavedFrames)
  {
    history[|history| - Min(|history|, MaxSavedFrames)..]
  }

  /** `frameTimeArray.reduce(0, +)`. */
  function Sum(s: seq<real>): real {
    if |s| == 0 then 0.0 else Sum(s[..|s| - 1]) + s[|s| - 1]
  }

  /** Read from `currentIndex` round to just before it, a buffer lists a
      sequence oldest sample first. */
  function Rotated(buffer: seq<real>, start: nat): seq<real>
    requires start <= |buffer|
  {
    buffer[start..] + buffer[..start]
  }

  /** A rotation keeps the samples. */
  lemma {:induction false} RotatedKeepsSamples(buffer: seq<real>, start: nat)
    requires start <= |buffer|
    ensures multiset(Rotated(buffer, start)) == multiset(buffer)
  {
    assert buffer == buffer[..start] + buffer[start..];
  }

  /** The ring relation between a buffer, its index and the samples so
      far. */
  ghost predicate Ring(buffer: seq<real>, index: int, history: seq<real>) {
    && |buffer| == Min(|history|, MaxSavedFrames)
    && 0 <= index < MaxSavedFrames
    && index == |history| % MaxSavedFrames
    && (|buffer| < MaxSavedFrames ==> index == |buffer|)
    && Rotated(buffer, index) == Window(history)
  }

  /** One update of the buffer: append while there is room, else overwrite
      the slot at the index. */
  function Stored(buffer: seq<real>, index: int, sample: real): seq<real>
    requires 0 <= index < MaxSavedFrames && (|buffer| == MaxSavedFrames || |buffer| < MaxSavedFrames)
  {
    if |buffer| < MaxSavedFrames then buffer + [sample] else buffer[index := sample]
  }

  /** An update keeps the ring relation. */
  lemma {:induction false} StoredKeepsRing(buffer: seq<real>, index: int, history: seq<real>, sample: real)
    requires Ring(buffer, index, history)
    ensures Ring(Stored(buffer, index, sample), (index + 1) % MaxSavedFrames, history + [sample])
  {
    var window := Window(history);
    if |buffer| < MaxSavedFrames {
      var appended := buffer + [sample];
      assert Rotated(appended, |appended| % MaxSavedFrames) == appended;
      assert history == window;
    } else {
      OverwriteRotates(buffer, index, sample);
      assert Window(history + [sample]) == window[1..] + [sample];
    }
  }

  class FpsCounterViewModel {
    var frameTimeArray: seq<real>
    var currentIndex: int
    var averageFrameTime: real
    /** Every frame time sampled so far, in order. */
    ghost var history: seq<real>

    /** The buffer holds the last `min(n, 100)` samples, `currentIndex` is
        the number of samples modulo 100 and is the slot of the oldest one
        once the buffer is full. */
    ghost predicate Valid()
      reads this
    {
      Ring(frameTimeArray, currentIndex, history)
    }

    constructor ()
      ensures Valid()
      ensures frameTimeArray == [] && currentIndex == 0 && history == []
    {
      frameTimeArray, currentIndex := [], 0;
      averageFrameTime := 0.0;
      history := [];
    }

    /** `updateFrameTime()`: appends while the buffer has room, otherwise
        overwrites the oldest slot only; advances the index modulo 100 and
        averages over a buffer that is never empty. */
    method UpdateFrameTime(newFrameTime: real)
      requires Valid()
      modifies this
      ensures Valid()
      ensures history == old(history) + [newFrameTime]
      ensures currentIndex == (old(currentIndex) + 1) % MaxSavedFrames
      ensures |old(frameTimeArray)| < MaxSavedFrames ==> frameTimeArray == old(frameTimeArray) + [newFrameTime]
      ensures |old(frameTimeArray)| == MaxSavedFrames ==>
        frameTimeArray == old(frameTimeArray)[old(currentIndex) := newFrameTime]
      ensures |frameTimeArray| >= 1
      ensures averageFrameTime == Sum(frameTimeArray) / (|frameTimeArray| as real)
    {
      StoredKeepsRing(frameTimeArray, currentIndex, history, newFrameTime);
      if |frameTimeArray| < MaxSavedFrames {
        frameTimeArray := frameTimeArray + [newFrameTime];
      } else {
        frameTimeArray := frameTimeArray[currentIndex := newFrameTime];
      }
      history := history + [newFrameTime];
      currentIndex := (currentIndex + 1) % MaxSavedFrames;
      averageFrameTime := Sum(frameTimeArray) / (|frameTimeArray| as real);
    }
  }

  /** Overwriting the oldest slot of a full buffer drops the oldest sample
      and adds the new one as the newest. */
  lemma {:induction false} OverwriteRotates(buffer: seq<real>, index: nat, sample: real)
    requires |buffer| == MaxSavedFrames && index < MaxSavedFrames
    ensures Rotated(buffer[index := sample], (index + 1) % MaxSavedFrames)
      == Rotated(buffer, index)[1..] + [sample]
  {
    var updated := buffer[index := sample];
    if index + 1 < MaxSavedFrames {
      assert updated[index + 1..] == buffer[index + 1..];
      assert updated[..index + 1] == buffer[..index] + [sample];
      assert Rotated(buffer, index)[1..] == buffer[index + 1..] + buffer[..index];
    } else {
      assert updated == buffer[..index] + [sample];
      assert Rotated(buffer, index)[1..] == buffer[..index];
    }
  }

  /** After any number of updates the buffer holds exactly the last
      `min(n, 100)` samples, counted with repetition. */
  lemma {:induction false} BufferHoldsLastSamples(model: FpsCounterViewModel)
    requires model.Valid()
    ensures multiset(model.frameTimeArray) == multiset(Window(model.history))
    ensures |model.history| >= MaxSavedFrames ==>
      multiset(model.frameTimeArray) == multiset(model.history[|model.history| - MaxSavedFrames..])
  {
    RotatedKeepsSamples(model.frameTimeArray, model.currentIndex);
  }

  /** The sum, and so the average, does not depend on the ring's rotation:
      the shown average is the average of the window. */
  lemma {:induction false} SumRotated(buffer: seq<real>, start: nat)
    requires start <= |buffer|
    ensures Sum(Rotated(buffer, start)) == Sum(buffer)
  {
    SumAppend(buffer[start..], buffer[..start]);
    SumAppend(buffer[..start], buffer[start..]);
    assert buffer == buffer[..start] + buffer[start..];
  }

  lemma {:induction false} SumAppend(a: seq<real>, b: seq<real>)
    ensures Sum(a + b) == Sum(a) + Sum(b)
  {
    if |b| > 0 {
      SumAppend(a, b[..|b| - 1]);
      assert (a + b)[..|a + b| - 1] == a + b[..|b| - 1];
    } else {
      assert a + b == a;
    }
  }

  /** The shown average is the mean frame time of the last samples. */
  lemma {:induction false} AverageOfWindow(model: FpsCounterViewModel)
    requires model.Valid()
    ensures Sum(model.frameTimeArray) == Sum(Window(model.history))
  {
    SumRotated(model.frameTimeArray, model.currentIndex);
  }
}
