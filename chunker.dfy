/** Fixed-size chunking of the extracted text (nimble/nimble.py:104-110, and
    the same loop for plain-text input at 191-197). */
module Chunker {
  import opened Strings

  /** Characters per request, kept under an assumed limit of 4096 characters
      per request to the remote service. */
  const MaxChunkChars: nat := 4072

  /** Reference definition: the slices `s[k:k+maxChars]` for
      `k = 0, maxChars, 2*maxChars, ...` while `k < |s|`. */
  function Chunks(s: string, maxChars: nat): (chunks: seq<string>)
    requires maxChars > 0
    decreases |s|
  {
    if |s| == 0 then []
    else if |s| <= maxChars then [s]
    else [s[..maxChars]] + Chunks(s[maxChars..], maxChars)
  }

  /** The suffix of `s` from `k` on, empty once `k` has run past the end
      (Python's `s[k:]`). */
  function From(s: string, k: nat): (t: string)
  {
    if k <= |s| then s[k..] else []
  }

  /** The chunking loop: a slice per step of `range(0, len(text), maxChars)`,
      each slice clipped at the end of the text as Python slicing does. */
  method ChunkText(text: string, maxChars: nat) returns (chunks: seq<string>)
    requires maxChars > 0
    ensures chunks == Chunks(text, maxChars)
    ensures Join(chunks) == text
    ensures WellSized(chunks, maxChars)
  {
    chunks := [];
    var start := 0;
    while start < |text|
      invariant chunks + Chunks(From(text, start), maxChars) == Chunks(text, maxChars)
      decreases |text| - start
    {
      var end := if start + maxChars <= |text| then start + maxChars else |text|;
      var piece := text[start..end];
      ChunksStep(text, start, maxChars);
      chunks := chunks + [piece];
      start := start + maxChars;
    }
    assert From(text, start) == [];
    JoinChunks(text, maxChars);
    ChunkSizes(text, maxChars);
  }

  /** One step of the loop: the chunks of the rest of the text from `start`
      are the next slice followed by the chunks from `start + maxChars`. */
  lemma ChunksStep(text: string, start: nat, maxChars: nat)
    requires maxChars > 0 && start < |text|
    ensures var end := if start + maxChars <= |text| then start + maxChars else |text|;
            Chunks(From(text, start), maxChars)
              == [text[start..end]] + Chunks(From(text, start + maxChars), maxChars)
  {
    var rest := text[start..];
    if |rest| > maxChars {
      assert rest[..maxChars] == text[start..start + maxChars];
      assert rest[maxChars..] == text[start + maxChars..];
    } else {
      var end := if start + maxChars <= |text| then start + maxChars else |text|;
      assert end == |text| && text[start..end] == rest;
      assert From(text, start) == rest;
      assert Chunks(rest, maxChars) == [rest];
      assert From(text, start + maxChars) == [];
      assert Chunks([], maxChars) == [];
    }
  }

  /** Round trip: the chunks, concatenated in order, are exactly the text;
      nothing is dropped, repeated or reordered. */
  lemma {:induction false} JoinChunks(s: string, maxChars: nat)
    requires maxChars > 0
    ensures Join(Chunks(s, maxChars)) == s
    decreases |s|
  {
    if |s| > maxChars {
      var rest := Chunks(s[maxChars..], maxChars);
      JoinChunks(s[maxChars..], maxChars);
      assert ([s[..maxChars]] + rest)[1..] == rest;
      assert s[..maxChars] + s[maxChars..] == s;
    } else if |s| > 0 {
      assert [s][1..] == [];
    }
  }

  /** Every chunk is non-empty and at most `maxChars` long, and every chunk
      but the last is exactly `maxChars` long. */
  predicate WellSized(chunks: seq<string>, maxChars: nat)
  {
    (forall i :: 0 <= i < |chunks| ==> 0 < |chunks[i]| <= maxChars) &&
    (forall i :: 0 <= i < |chunks| - 1 ==> |chunks[i]| == maxChars)
  }

  /** Bounds: the reference chunks are well sized. */
  lemma {:induction false} ChunkSizes(s: string, maxChars: nat)
    requires maxChars > 0
    ensures WellSized(Chunks(s, maxChars), maxChars)
    decreases |s|
  {
    if |s| > maxChars {
      var rest := Chunks(s[maxChars..], maxChars);
      ChunkSizes(s[maxChars..], maxChars);
      var r := Chunks(s, maxChars);
      assert r == [s[..maxChars]] + rest;
      forall i | 0 <= i < |r|
        ensures 0 < |r[i]| <= maxChars && (i < |r| - 1 ==> |r[i]| == maxChars)
      {
        if i > 0 {
          assert r[i] == rest[i - 1];
        }
      }
    }
  }

  /** Count: there are as many chunks as it takes `maxChars`-sized pieces to
      cover the text, `ceil(|s| / maxChars)`, stated without division: none
      for the empty text, and otherwise one fewer would cover too little. */
  lemma {:induction false} ChunkCountBounds(s: string, maxChars: nat)
    requires maxChars > 0
    ensures var n := |Chunks(s, maxChars)|;
            (n == 0 <==> |s| == 0) && (n - 1) * maxChars < |s| <= n * maxChars
    decreases |s|
  {
    if |s| > maxChars {
      ChunkCountBounds(s[maxChars..], maxChars);
      var n := |Chunks(s[maxChars..], maxChars)|;
      assert (n + 1 - 1) * maxChars == n * maxChars;
      assert (n + 1) * maxChars == n * maxChars + maxChars;
    }
  }

  /** The same count as the integer `ceil(|s| / maxChars)`. */
  lemma ChunkCount(s: string, maxChars: nat)
    requires maxChars > 0
    ensures |Chunks(s, maxChars)| == (|s| + maxChars - 1) / maxChars
  {
    ChunkCountBounds(s, maxChars);
    var n := |Chunks(s, maxChars)|;
    var x := |s| + maxChars - 1;
    if n == 0 {
      assert x < maxChars;
    } else {
      assert n * maxChars <= x < n * maxChars + maxChars;
      DivUnique(x, maxChars, n);
    }
  }

  /** Integer division is determined by the bracketing multiples. */
  lemma DivUnique(x: nat, m: nat, q: nat)
    requires m > 0 && q * m <= x < q * m + m
    ensures x / m == q
  {
    var d := x / m;
    assert x == d * m + x % m;
    if d < q {
      MulMono(d + 1, q, m);
    } else if d > q {
      MulMono(q + 1, d, m);
    }
  }

  lemma MulMono(a: nat, b: nat, m: nat)
    requires a <= b
    ensures a * m <= b * m
  {
    var k := b - a;
    assert b * m == a * m + k * m;
  }

  /** The reference case: 10,000 characters make chunks of 4072, 4072 and
      1856 characters. */
  lemma TenThousandChars(s: string)
    requires |s| == 10000
    ensures var r := Chunks(s, MaxChunkChars);
            |r| == 3 && |r[0]| == 4072 && |r[1]| == 4072 && |r[2]| == 1856
  {
    var s1 := s[4072..];
    var s2 := s1[4072..];
    assert Chunks(s2, MaxChunkChars) == [s2];
    assert Chunks(s1, MaxChunkChars) == [s1[..4072]] + [s2];
  }
}
