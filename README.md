# StartRecentKVCache, modelled in Dafny

This project models the start + recent key/value cache of `kv_cache.py`
(`StartRecentKVCache`). The cache holds one key tensor and one value tensor
per transformer layer. The class keeps the cache within
`cache_size = start_size + recent_size` positions by keeping the first
`start_size` positions and the last `recent_size` positions. The caller can
also ask it to keep some ranges in between. The class has three operations:

- `__call__` (here `Trim`) runs after the cache has grown.
- `evict_for_space` (here `EvictForSpace`) runs before `num_coming` new
  positions are appended.
- `evict_range` (here `EvictRange`) cuts out one span `[start, end)`.

Each operation is one list comprehension over the layers. It rebuilds the
layer's key and value by concatenating slices along each tensor's sequence
axis.

Layout:

- `slicing.dfy` (module `Slicing`): a tensor is abstracted to the sequence
  of its positions along its sequence axis.
  - `Slice` is `x[..., a:b, ...]` with Python's rules for slice bounds: a
    negative bound counts from the end, bounds are clamped to the length, and
    a start past the end gives an empty slice.
  - `Cat` is `torch.cat` of a list of such slices.
  - `Positions` lists the source indices that `Cat` keeps.
  - The three `slice1d/2d/3d` helpers become this one slice.
- `kv_cache.py`'s logic is in `kv_cache.dfy` (module `KVCache`):
  - the configuration (`Init`);
  - the three operations, as pure functions over
    `Option<seq<Layer<K, V>>>`;
  - lemmas that state what each operation keeps.
- `scenarios.dfy` (module `Scenarios`): concrete runs on a one-layer cache
  whose positions carry their own index as a marker. It also holds the two
  findings below.

Errors are values of `Result`:

- An empty layer list makes `past_key_values[0][0]` raise; this is `NoLayers`.
- A failed `assert` in `evict_range` is `RangeAssertion`.

The source reads the sequence length from layer 0's key only. The operations
stay total on any input, as the source does. The lemmas about what is kept
assume `Uniform(pkv, n)`: every layer's key and value have `n` positions.

The model follows what the code checks, not what a careful caller would
expect it to check:

- The constructor at `kv_cache.py:24-38` rejects neither a non-positive
  `recent_size` nor a negative `start_size`. `Init` therefore accepts any
  sizes, and the lemmas assume `Config.Valid()`.
- The `assert` at `kv_cache.py:143` does not reject `start < 0` (see
  Findings).
- The keep ranges are not validated (sorted, disjoint, in range), in the
  code or in the model. Each lemma states the range conditions it needs.

## Model

| member | source | states |
|---|---|---|
| `KVCache.Init` | kv_cache.py:24-38 | the stored sizes are the arguments (4 and 512 by default) and `cacheSize` is their sum |
| `KVCache.Trim` | kv_cache.py:40-84 | an absent cache gives absent; an empty layer list fails with `NoLayers` and nothing else fails; the layer count is kept; when layer 0's length is at most `cacheSize`, the input comes back unchanged |
| `KVCache.TrimWindow` | kv_cache.py:46-65 | without keeps and past capacity, every key and value loses exactly the positions `[startSize, n - recentSize)`; the rest stay in increasing order, and every layer ends with exactly `cacheSize` positions |
| `KVCache.TrimUnchangedIff` | kv_cache.py:43-65 | without keeps, trim returns its input if and only if `n <= cacheSize` |
| `KVCache.TrimKeepsLayout` | kv_cache.py:66-84 | with keeps, every key and value is its start block, then each kept range widened to `[st-1 : ed+1]` in the caller's order, then the last `recentSize` positions; key and value are cut at the same positions |
| `KVCache.WidenedLength` | kv_cache.py:72 | the widened ranges cover two positions per range more than the ranges themselves |
| `KVCache.TrimKeepsLength` | kv_cache.py:66-84 | when every widened range lies inside the sequence, the new length is `cacheSize` plus the kept lengths plus two per range |
| `KVCache.TrimKeepsOrdered` | kv_cache.py:71-73 | when the start block, the widened ranges and the tail are in order and inside the sequence, the kept positions strictly increase, so the result is an order-preserving subsequence |
| `KVCache.TrimIgnoresKeepSize` | kv_cache.py:67 | `keeps[0]` does not affect the result of trim: any two budgets with the same ranges give the same result |
| `KVCache.TrimRetainsKeptRanges` | kv_cache.py:72 | every position of a kept range that starts at 1 or later is among the positions trim keeps |
| `KVCache.EvictForSpace` | kv_cache.py:86-136 | an absent cache gives absent; an empty layer list fails with `NoLayers` and nothing else fails; the layer count is kept; when `n + numComing <= cacheSize`, the input comes back unchanged |
| `KVCache.EvictForSpaceWindow` | kv_cache.py:92-116 | without keeps and for `0 <= numComing <= recentSize`, the tail start lies strictly after the start block; the positions between them are removed and the rest stay in order; the new length plus `numComing` is exactly `cacheSize` |
| `KVCache.EvictForSpaceUnchangedIff` | kv_cache.py:89-116 | without keeps and for `0 <= numComing <= recentSize`, evict_for_space returns its input if and only if `n + numComing <= cacheSize` |
| `KVCache.EvictForSpaceStartOnly` | kv_cache.py:92-116 | without keeps, for `numComing > recentSize` on a cache of at least `startSize` positions, the tail start is past the end, so every key and value keeps exactly its first `startSize` positions |
| `KVCache.EvictForSpaceKeepsLayout` | kv_cache.py:117-136 | with keeps, for any `numComing >= 0` and `keepSize >= 0` that trigger eviction on a cache of at least `startSize` positions, every key and value is its start block, then each kept range taken verbatim as `[st : ed]`, then the positions from `n - recentSize + numComing + keepSize // 4`; that tail start lies after the start block, and a position in both a kept range and the tail appears twice |
| `KVCache.EvictForSpaceKeepsOrdered` | kv_cache.py:120-136 | when the start block, the verbatim kept ranges and the tail are in order and inside the sequence, the kept positions strictly increase, so the result is an order-preserving subsequence |
| `KVCache.EvictForSpaceKeepsLength` | kv_cache.py:117-136 | when the ranges lie inside the sequence and the tail start is within it, the new length is `cacheSize - numComing` plus the kept lengths minus `keepSize // 4` |
| `KVCache.EvictRange` | kv_cache.py:139-162 | an absent cache gives absent; it fails if and only if the layer list is empty (`NoLayers`) or `start <= end <= n` does not hold (`RangeAssertion`); on success the layer count is kept |
| `KVCache.EvictRangeCut` | kv_cache.py:142-162 | for `0 <= start <= end <= n`, every key and value loses exactly `[start, end)`; the rest stay in order, and `n - (end - start)` positions are left |
| `KVCache.EvictRangeEmpty` | kv_cache.py:144-162 | evicting `[m, m)` gives back every layer unchanged |
| `KVCache.CutLayers` | kv_cache.py:47-65 | the comprehension over layers keeps the layer count, and each layer's key and value get exactly as many positions as the slices select from each |
| `KVCache.CutSelects` | kv_cache.py:144-162 | the comprehension over layers cuts every key and every value at the same positions, whatever their contents |
| `KVCache.TrimFromZero` | kv_cache.py:72 | trim with the widening stopped at position 0 keeps trim's absent, error, layer-count and unchanged-input behaviour |
| `KVCache.TrimFromZeroRetainsKeptRanges` | kv_cache.py:66-84 | with the correction, every position of every kept range inside the sequence survives trim, including a range that starts at 0 |
| `KVCache.TrimFromZeroAgrees` | kv_cache.py:72 | the correction gives the same result as the code whenever no kept range starts at 0 |
| `KVCache.EvictRangeChecked` | kv_cache.py:143 | evict_range with the check widened to `0 <= start <= end <= n`: on a non-empty cache it fails with `RangeAssertion` if and only if that check fails, and succeeds, keeping the layer count, if and only if it holds |
| `KVCache.EvictRangeCheckedShrinks` | kv_cache.py:143-162 | whatever the arguments, when the checked evict_range succeeds it agrees with evict_range and removes exactly `[start, end)` |
| `Slicing.Clamp` | kv_cache.py:4-13 | a normalised slice bound lies in `[0, n]` |
| `Slicing.Slice` | kv_cache.py:4-13 | a slice is never longer than the sequence; with bounds in order and in range it is `s[a..b]`; with the start at or past the end it is empty |
| `Slicing.Cat` | kv_cache.py:49-55 | `torch.cat` of the slices has exactly as many positions as the normalised slices name together |
| `Slicing.CatPositions` | kv_cache.py:49-55 | `torch.cat` of the slices is, element by element, the source at the indices `Positions` lists |
| `Slicing.CatLength` | kv_cache.py:49-55 | with no bound normalised, the concatenation has as many positions as the spans name |
| `Slicing.AscendingPositions` | kv_cache.py:49-55 | spans that are in order and inside the sequence keep strictly increasing indices |
| `Slicing.CatAppend` | kv_cache.py:71-73 | concatenating a slice list built with `+` is the concatenation of the parts |
| `Slicing.CatAdjacent` | kv_cache.py:148-149 | the slices `[0:m]` and `[m:n]` together give back the whole sequence |
| `Scenarios.TrimExample` | kv_cache.py:46-65 | with sizes 4 and 8 and twenty marked positions, trim keeps `[0,1,2,3,12..19]` |
| `Scenarios.EvictForSpaceExample` | kv_cache.py:92-116 | with sizes 4 and 8, twelve positions and five coming, evict_for_space keeps `[0,1,2,3,9,10,11]` |
| `Scenarios.EvictForSpaceKeepsExample` | kv_cache.py:117-136 | the same run with keeps `(2, [(10, 12)])` gives `[0,1,2,3,10,11,9,10,11]`, with the duplicates kept |
| `Scenarios.TrimDropsRangeAtZero` | kv_cache.py:72 | with sizes 0 and 2, `n >= 4` positions and kept range `(0, 2)`, trim keeps only the last two positions, so the kept range is lost |
| `Scenarios.TrimFromZeroKeepsRangeAtZero` | kv_cache.py:72 | the same run with the corrected widening keeps `[0, 1, 2, n-2, n-1]` |
| `Scenarios.EvictRangeNegativeStart` | kv_cache.py:143-150 | on four positions, `evict_range(-1, 0)` passes the assert and gives seven positions with duplicates; the checked version rejects it |

## Left out

- The sequence axes `k_seq_dim` and `v_seq_dim`, the `DIM_TO_SLICE` table
  and its `KeyError` for other axes are left out. Only the sequence axis
  matters, and every other axis passes through a slice unchanged.
- `torch.cat`, `Tensor.size` and tensor shapes on the other axes are left
  out: they come from a foreign library. A tensor is a sequence of
  positions.
- The `print` calls are left out: they are logging with no effect on
  results.
- The errors that come with the axes are left out together with the
  axes: the `KeyError` of `DIM_TO_SLICE` for an axis other than 1 to 3,
  and the `IndexError` of `slice2d`/`slice3d` on a tensor of too low a
  rank. The constructor does not check the sizes, and a cache whose layers
  disagree on their length is not rejected; no lemma covers such a cache.
- How callers choose `keeps` and the generation loop are left out: they
  are outside this file.
- Python integers are unbounded, so the model does no wrap-around.
- `keepsize // 4` floors. For the divisor 4, Dafny's Euclidean `/` gives
  the same result on every integer.
- EvictForSpaceWindow: proves the exact `cacheSize` bound only for
  `0 <= numComing <= recentSize`; EvictForSpaceStartOnly covers
  `numComing > recentSize`. A negative `numComing` and a cache shorter than
  `startSize` are not covered by a lemma.
- TrimRetainsKeptRanges: covers only ranges that start at 1 or later,
  because a range that starts at 0 is dropped (see Findings).

## Findings

| source | as written | input that shows it | evidently intended | confidence | as-written member | corrected member |
|---|---|---|---|---|---|---|
| kv_cache.py:72 | a kept range `(st, ed)` is sliced as `[st-1 : ed+1]`; for `st == 0` this is `[-1 : ed+1]`, and Python reads `-1` as the last position | sizes 0 and 2, `n >= 4` positions, keeps `(2, [(0, 2)])`: the slice is empty and positions 0 and 1 are lost | widen to `[max(st-1, 0) : ed+1]`, so every kept position survives | medium, not executed | `Scenarios.TrimDropsRangeAtZero` | `KVCache.TrimFromZero` |
| kv_cache.py:143 | the assert checks only `start <= end <= seq_len` | four positions, `start = -1`, `end = 0`: the slices `[0:-1]` and `[0:4]` give seven positions with three duplicates | also require `0 <= start` | medium, not executed | `Scenarios.EvictRangeNegativeStart` | `KVCache.EvictRangeChecked` |
