/** The in-memory list of recent diagnoses (app.py:58-59, app.py:122-128,
    app.py:141-143), threaded through the model as a value. */
module History {
  import opened Seqs

  /** How many records are kept. */
  const Capacity: nat := 5

  /** One stored diagnosis; `confidence` is the text shown, e.g. "75%". */
  datatype Entry = Entry(time: string, crop: string, disease: string, confidence: string)

  /** `history.insert(0, e)` followed by `history[:] = history[:5]`: the new
      record first, the older ones after it in their old order, and only
      what falls past the fifth place dropped. */
  function Push(h: seq<Entry>, e: Entry): (r: seq<Entry>)
    ensures |r| == Min(|h| + 1, Capacity)
    ensures r[0] == e
    ensures forall i :: 1 <= i < |r| ==> r[i] == h[i - 1]
  {
    ([e] + h)[..Min(|h| + 1, Capacity)]
  }

  /** A full history loses exactly its oldest record. */
  lemma PushEvictsOldest(h: seq<Entry>, e: Entry)
    requires |h| == Capacity
    ensures Push(h, e) == [e] + h[..Capacity - 1]
  {
  }

  /** The history after recording `es` in order, oldest first. */
  function RecordAll(h: seq<Entry>, es: seq<Entry>): seq<Entry>
    decreases |es|
  {
    if |es| == 0 then h else RecordAll(Push(h, es[0]), es[1..])
  }

  /** After a series of diagnoses the history holds the newest ones, newest
      first, followed by as many of the earlier records as still fit. */
  lemma {:induction false} RecordAllNewestFirst(h: seq<Entry>, es: seq<Entry>)
    requires |h| <= Capacity
    ensures |RecordAll(h, es)| == Min(|es| + |h|, Capacity)
    ensures forall i :: 0 <= i < |RecordAll(h, es)| ==>
      RecordAll(h, es)[i] == if i < |es| then es[|es| - 1 - i] else h[i - |es|]
    decreases |es|
  {
    if |es| > 0 {
      var h' := Push(h, es[0]);
      RecordAllNewestFirst(h', es[1..]);
      var r := RecordAll(h, es);
      assert r == RecordAll(h', es[1..]);
      forall i | 0 <= i < |r|
        ensures r[i] == if i < |es| then es[|es| - 1 - i] else h[i - |es|]
      {
        if i < |es| - 1 {
          assert r[i] == es[1..][|es| - 2 - i];
        } else if i == |es| - 1 {
          assert r[i] == h'[0];
        } else {
          assert r[i] == h'[i - |es| + 1];
        }
      }
    }
  }

  /** Starting from the empty history, at most five records are kept: the
      most recent ones, in reverse chronological order. */
  lemma NewestFirstFromEmpty(es: seq<Entry>)
    ensures |RecordAll([], es)| == Min(|es|, Capacity)
    ensures forall i :: 0 <= i < |RecordAll([], es)| ==> RecordAll([], es)[i] == es[|es| - 1 - i]
  {
    RecordAllNewestFirst([], es);
  }
}
