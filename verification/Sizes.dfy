// Request sizes and chunk sizes.
module Sizes {
  import opened Word
  import opened Tags

  const CHUNK_OVERHEAD: nat := 16
  const MIN_REQUEST: nat := MIN_CHUNK_SIZE - CHUNK_OVERHEAD - 1
  const MAX_REQUEST: nat := TWO64 - 4 * MIN_CHUNK_SIZE
  const MAX_SMALL_REQUEST: nat := 224
  const MAX_SIZE_T: nat := TWO64 - 1

  function PadRequest(bytes: nat): nat {
    (bytes + CHUNK_OVERHEAD + 15) / 16 * 16
  }

  function Request2Size(bytes: nat): nat {
    if bytes < MIN_REQUEST then MIN_CHUNK_SIZE else PadRequest(bytes)
  }

  // The chunk size is the least that holds the request and its overhead.
  lemma SizeFits(bytes: nat)
    ensures var nb := Request2Size(bytes);
      && MIN_CHUNK_SIZE <= nb && nb % 16 == 0
      && bytes + CHUNK_OVERHEAD <= nb
      && nb <= bytes + CHUNK_OVERHEAD + 16
    ensures forall s :: MIN_CHUNK_SIZE <= s && s % 16 == 0 && bytes + CHUNK_OVERHEAD <= s ==> Request2Size(bytes) <= s
  {
    var q := (bytes + 31) / 16;
    assert PadRequest(bytes) == q * 16;
    forall s | MIN_CHUNK_SIZE <= s && s % 16 == 0 && bytes + CHUNK_OVERHEAD <= s
      ensures Request2Size(bytes) <= s
    {
      assert s == (s / 16) * 16;
    }
  }

  // What the three kinds of requests ask for.
  lemma SmallRequest(bytes: nat)
    ensures bytes <= MAX_SMALL_REQUEST <==> Request2Size(bytes) < 256
    ensures bytes <= MAX_SMALL_REQUEST ==> Request2Size(bytes) <= 240
    ensures bytes < MAX_REQUEST ==> Request2Size(bytes) < TWO64 - 64
  {
    SizeFits(bytes);
  }
}
