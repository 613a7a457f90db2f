/**
 * The anomaly engine of src/python/anomaly.py: two online models, a
 * mini-batch clusterer and an isolation forest with a sliding window, whose
 * scores are fused into one anomaly score; a score above 0.8 raises an alert.
 *
 * The TF-IDF vectorizer, HDBSCAN, the isolation forest and the distance to
 * the nearest cluster centre are foreign code. Each becomes a function given
 * to the constructor: what it computes is left open, only when it is called
 * and on which data is modelled. Scores are reals.
 */
module Anomaly {
  import opened Wrappers
  import Deque
  import Api

  /** A TF-IDF vector. */
  type Vec = seq<real>

  /** `HDBSCANWrapper(batch_size=512)`. */
  const Batch: nat := 512
  /** `deque(maxlen=5_000)` in `IsoForestWrap`. */
  const Window: nat := 5000
  /** The heuristic alert threshold of `_process_tokens`. */
  const AlertThreshold: real := 0.8

  /**
   * `HDBSCANWrapper`: vectors collect in `buf`; on the 512th the clusterer
   * is refitted on exactly those vectors and the buffer is cleared.
   */
  class Clusterer {
    /** Distance from a vector to the nearest cluster centre of a clusterer fitted on the given data. */
    const nearest: (seq<Vec>, Vec) -> real
    /** `_buf`. */
    var buf: seq<Vec>
    /** `_clusterer`: `None`, or the data the current clusterer was fitted on. */
    var fittedOn: Option<seq<Vec>>
    /** Every vector given to `partial_fit`, oldest first. */
    ghost var history: seq<Vec>
    /** How many times the clusterer has been fitted. */
    ghost var fits: nat

    /**
     * The history splits into `fits` full batches and then the buffer; the
     * clusterer exists iff a batch was ever full, and was fitted on the last one.
     */
    ghost predicate Valid()
      reads this
    {
      && |buf| < Batch
      && |history| == fits * Batch + |buf|
      && buf == history[fits * Batch..]
      && (fittedOn.None? <==> fits == 0)
      && (fittedOn.Some? ==> fittedOn.value == history[(fits - 1) * Batch..fits * Batch])
    }

    /** `__init__`: an empty buffer and no clusterer. */
    constructor(nearest: (seq<Vec>, Vec) -> real)
      ensures Valid() && this.nearest == nearest
      ensures history == [] && buf == [] && fittedOn == None
    {
      this.nearest := nearest;
      buf := [];
      fittedOn := None;
      history := [];
      fits := 0;
    }

    /** `partial_fit(vec)`: buffer the vector; at 512 refit on the buffer and clear it. */
    method PartialFit(vec: Vec)
      requires Valid()
      modifies this
      ensures Valid()
      ensures history == old(history) + [vec]
      ensures |old(buf)| + 1 == Batch ==> buf == [] && fittedOn == Some(old(buf) + [vec]) && fits == old(fits) + 1
      ensures |old(buf)| + 1 < Batch ==> buf == old(buf) + [vec] && fittedOn == old(fittedOn) && fits == old(fits)
      ensures old(fittedOn).Some? ==> fittedOn.Some?
    {
      buf := buf + [vec];
      history := history + [vec];
      if |buf| >= Batch {
        fittedOn := Some(buf);
        buf := [];
        fits := fits + 1;
      }
    }

    /**
     * `score(vec)`: `None` iff fewer than 512 vectors have ever been given to
     * `partial_fit`; otherwise the distance to the nearest centre of the
     * current clusterer.
     */
    function Score(vec: Vec): (r: Option<real>)
      reads this
      requires Valid()
      ensures r.None? <==> |history| < Batch
      ensures r.Some? ==> fittedOn.Some? && r.value == nearest(fittedOn.value, vec)
    {
      if fittedOn.None? then None else Some(nearest(fittedOn.value, vec))
    }
  }

  /**
   * `IsoForestWrap`: a sliding window of the last 5000 vectors; the forest
   * is trained once, on the call where the window first fills, and `_warm`
   * then stays true for good.
   */
  class Forest {
    /** `score_samples` of a forest trained on the given data. */
    const scoreSamples: (seq<Vec>, Vec) -> real
    /** `_buf`. */
    var window: seq<Vec>
    /** `_warm`. */
    var warm: bool
    /** The data `_clf` was fitted on, once it has been. */
    var trainedOn: Option<seq<Vec>>
    /** Every vector given to `partial_fit`, oldest first. */
    ghost var history: seq<Vec>
    /** How many times `fit` has run. */
    ghost var fits: nat

    /**
     * The window holds the last min(n, 5000) vectors; the forest is warm iff
     * 5000 vectors have arrived, was then trained exactly once, on the first 5000.
     */
    ghost predicate Valid()
      reads this
    {
      && window == Deque.LastN(history, Window)
      && (warm <==> |history| >= Window)
      && (warm ==> trainedOn == Some(history[..Window]))
      && (!warm ==> trainedOn == None)
      && fits == (if warm then 1 else 0)
    }

    /** `__init__`: an empty window and a cold, unfitted forest. */
    constructor(scoreSamples: (seq<Vec>, Vec) -> real)
      ensures Valid() && this.scoreSamples == scoreSamples
      ensures history == [] && !warm
    {
      this.scoreSamples := scoreSamples;
      window := [];
      warm := false;
      trainedOn := None;
      history := [];
      fits := 0;
    }

    /** `partial_fit(vec)`: slide the window; train on it the first time it is full. */
    method PartialFit(vec: Vec)
      requires Valid()
      modifies this
      ensures Valid()
      ensures history == old(history) + [vec]
      ensures window == Deque.Append(old(window), vec, Window)
      ensures old(warm) ==> warm && trainedOn == old(trainedOn)
      ensures warm && !old(warm) ==> trainedOn == Some(window)
    {
      Deque.AppendKeepsLastN(history, vec, Window);
      window := Deque.Append(window, vec, Window);
      history := history + [vec];
      if warm {
        assert history[..Window] == old(history)[..Window];
      }
      if |window| == Window && !warm {
        assert history[..Window] == history;
        trainedOn := Some(window);
        warm := true;
        fits := fits + 1;
      }
    }

    /** `score(vec)`: `None` iff not warm; otherwise the negated sample score of the trained forest. */
    function Score(vec: Vec): (r: Option<real>)
      reads this
      requires Valid()
      ensures r.None? <==> |history| < Window
      ensures r.Some? ==> trainedOn.Some? && r.value == -scoreSamples(trainedOn.value, vec)
    {
      if !warm then None else Some(-scoreSamples(trainedOn.value, vec))
    }
  }

  /** Python's `a or b` for a float-or-`None` a: a when it is truthy (present and not 0.0), else b. */
  function Or(a: Option<real>, b: real): real {
    if a.Some? && a.value != 0.0 then a.value else b
  }

  /**
   * The fusion of lines 129-132. With both scores present, 0.6 hdb + 0.4 iso;
   * otherwise `iso or (hdb or 0.0)`, which comes down to the one score that
   * is present, or 0.0 when neither is.
   */
  function Fuse(hdb: Option<real>, iso: Option<real>): (r: real)
    ensures hdb.Some? && iso.Some? ==> r == 0.6 * hdb.value + 0.4 * iso.value
    ensures hdb.Some? && iso.None? ==> r == hdb.value
    ensures hdb.None? && iso.Some? ==> r == iso.value
    ensures hdb.None? && iso.None? ==> r == 0.0
  {
    if hdb.Some? && iso.Some? then hdb.value * 0.6 + iso.value * 0.4
    else Or(iso, Or(hdb, 0.0))
  }

  /** Worked values of the fusion. */
  lemma FuseExamples()
    ensures Fuse(Some(0.95), Some(0.70)) == 0.85
    ensures Fuse(None, Some(0.0)) == 0.0
    ensures Fuse(Some(0.9), None) == 0.9
  {
  }

  /** A fused score above 0.8 needs at least one model to be trained. */
  lemma AlertNeedsAModel(hdb: Option<real>, iso: Option<real>)
    requires Fuse(hdb, iso) > AlertThreshold
    ensures hdb.Some? || iso.Some?
  {
  }

  /** `AnomalyEngine`: the vectorizer, the two models, the alert counter and the writer. */
  class Engine {
    /** `Vectorizer.transform`. */
    const vectorize: seq<int> -> Vec
    /** `self.hdb`. */
    const hdb: Clusterer
    /** `self.iso`. */
    const iso: Forest
    /** `ALERT_COUNTER`. */
    var alertsTotal: nat
    /** The rows given to the writer, oldest first. */
    ghost var written: seq<Api.Alert>

    ghost predicate Valid()
      reads this, hdb, iso
    {
      hdb.Valid() && iso.Valid()
    }

    /** `__init__`: fresh models built on the given scorers, no alert yet. */
    constructor(vectorize: seq<int> -> Vec, nearest: (seq<Vec>, Vec) -> real, scoreSamples: (seq<Vec>, Vec) -> real)
      ensures Valid() && fresh(hdb) && fresh(iso)
      ensures this.vectorize == vectorize && hdb.nearest == nearest && iso.scoreSamples == scoreSamples
      ensures hdb.history == [] && iso.history == [] && alertsTotal == 0 && written == []
    {
      this.vectorize := vectorize;
      hdb := new Clusterer(nearest);
      iso := new Forest(scoreSamples);
      alertsTotal := 0;
      written := [];
    }

    /** `_emit_alert(tokens, score, ts_ns)`: one row to the writer. */
    method EmitAlert(tokens: seq<int>, score: real, tsNs: int)
      modifies this
      ensures written == old(written) + [Api.Alert(tsNs, score, |tokens|)]
      ensures alertsTotal == old(alertsTotal)
    {
      written := written + [Api.Alert(tsNs, score, |tokens|)];
    }

    /**
     * `_process_tokens(tokens, ts_ns)`: both models are trained on the vector
     * first and then score it, so the 512th line is scored by the clusterer
     * just fitted and the 5000th by the forest just trained. An alert (one
     * counter step and one row) is raised iff the fused score exceeds 0.8.
     */
    method ProcessTokens(tokens: seq<int>, tsNs: int)
      requires Valid()
      modifies this, hdb, iso
      ensures Valid()
      ensures hdb.history == old(hdb.history) + [vectorize(tokens)]
      ensures iso.history == old(iso.history) + [vectorize(tokens)]
      ensures hdb.Score(vectorize(tokens)).Some? <==> |old(hdb.history)| + 1 >= Batch
      ensures iso.Score(vectorize(tokens)).Some? <==> |old(iso.history)| + 1 >= Window
      ensures var score := Fuse(hdb.Score(vectorize(tokens)), iso.Score(vectorize(tokens)));
        && (score > AlertThreshold ==> alertsTotal == old(alertsTotal) + 1 && written == old(written) + [Api.Alert(tsNs, score, |tokens|)])
        && (score <= AlertThreshold ==> alertsTotal == old(alertsTotal) && written == old(written))
    {
      var vec := vectorize(tokens);
      hdb.PartialFit(vec);
      iso.PartialFit(vec);
      var hdbScore := hdb.Score(vec);
      var isoScore := iso.Score(vec);
      var score := Fuse(hdbScore, isoScore);
      if score > AlertThreshold {
        alertsTotal := alertsTotal + 1;
        EmitAlert(tokens, score, tsNs);
      }
    }

    /** `Push(request, context)`: process the tokens and acknowledge with status true. */
    method Push(tokens: seq<int>, ts: int) returns (status: bool)
      requires Valid()
      modifies this, hdb, iso
      ensures Valid()
      ensures status
      ensures hdb.history == old(hdb.history) + [vectorize(tokens)]
      ensures iso.history == old(iso.history) + [vectorize(tokens)]
      ensures hdb.Score(vectorize(tokens)).Some? <==> |old(hdb.history)| + 1 >= Batch
      ensures iso.Score(vectorize(tokens)).Some? <==> |old(iso.history)| + 1 >= Window
      ensures var score := Fuse(hdb.Score(vectorize(tokens)), iso.Score(vectorize(tokens)));
        && (score > AlertThreshold ==> alertsTotal == old(alertsTotal) + 1 && written == old(written) + [Api.Alert(ts, score, |tokens|)])
        && (score <= AlertThreshold ==> alertsTotal == old(alertsTotal) && written == old(written))
    {
      ProcessTokens(tokens, ts);
      status := true;
    }
  }
}
