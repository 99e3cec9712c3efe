# Dice distributions, a star chart and a shared pointer, in Dafny

This project models six small programs from one repository and proves
properties of the models:

- **`MySharedPtr`** (`toy_implementations/shared_ptr_toy_impl/main.cpp`) is a
  reference-counted handle. Its shared `size_t` counter and its managed
  `MyTestClass` are heap objects with a `freed` flag that `delete` sets. A
  ghost registry of the live handles lets each method prove that every counter
  still holds the number of handles pointing at it. `main()` is followed block
  by block.
- **The star-chart plotter** (`starview_plotter/generate_starview.py`) turns
  degree:minute angles into points on the unit sphere. It then projects them
  onto the plane through the stars' centre of mass, orthographically or
  stereographically, and gathers what `save` would plot. `Star` and `View` are
  classes with their memo caches (`_cart_coord`, `_normal`, `_bases`).
- **`gen_prob_dist`** (`oathsworn_dice_distribution/gen_prob_dist.py`) is the
  Monte-Carlo distribution of a hand of Oathsworn dice. Two or more blanks
  count as 0; any other roll counts as its sum. The tally is divided by 10000.
- **`gen_all_prob_dist`** enumerates every multiset of 1 to 10 dice. It uses
  the cartesian product of the die names, sorted into a key with parameter
  counts, and then fills in each key's distribution.
- **`prob_dist_json_to_csv`** writes the header `A,B,C,D,0,…,49` and one row per
  parameter. A row holds the four die counts and then the 50 probabilities,
  with "0" for a missing sum.
- **`markov.py`** computes the distribution of the sum of N dice with F faces.
  It builds the (N·F+1)² banded transition matrix, takes its N-th power and
  reads off row 0. It then reports the states from N up and their total.

Modules follow the files:

| file | module | source |
|---|---|---|
| `wrappers.dfy` | `Wrappers` | `Option`, `Result` and a loop that stops at the first error |
| `text.dfy` | `Text` | `str.split`, `",".join`, and `str`/`int`/`float` on integers |
| `shared_ptr.dfy` | `SharedPtr` | `main.cpp` |
| `star_math.dfy` | `StarMath` | the free functions and the projections of `generate_starview.py` |
| `star_view.dfy` | `StarView` | the classes `Star` and `View` |
| `dice_dist.dfy` | `DiceDistribution` | `gen_prob_dist.py` |
| `dice_enum.dfy` | `DiceEnumeration` | `gen_all_prob_dist.py` |
| `markov.dfy` | `MarkovDice` | `markov.py` |
| `prob_csv.dfy` | `ProbDistCsv` | `prob_dist_json_to_csv.py` |

The model reproduces the programs' quirks as written. Each quirk and its
consequence is a lemma:

- `normalize` squares every component except the first, because the `reduce`
  has no initial value. A unit length results exactly when `x² = x`.
- `parse_angle` reads the minutes field twice, as minutes and as seconds.
- A copy assignment of the only handle to itself frees the object and then
  writes to the freed counter.
- `gen_prob_dist` always divides by `NO_OF_SAMPLES`, whatever sample count it
  is given.
- In one place the code and its own description disagree, and the model
  follows the code: the docstring of `bases` describes the cross product of
  `b1` with the normal, `b1 × normal`, while the code computes
  `cross(normal, b1)`, which is `−(b1 × normal)` (`CrossAntiSymmetric`).

Where Python raises, the model returns an error value, except for a die with
an empty face list (see "Left out"). `float`/`int` of bad
text gives `ValueError`, `l[1]` of an angle without `:` gives `IndexError`,
and a zero length or a zero stereographic denominator gives `ZeroDivision`. A
view built from no stars gives `AttributeError`. A missing die name or a
missing "distribution" in a CSV record gives `KeyError`; every record is taken
to hold a "parameter" map. In `markov.py`, a negative matrix size gives `ValueError` and a
zero-sized one gives `IndexError`.

## Model

| member | source | states |
|---|---|---|
| SharedPtr.Handle.Default | toy_implementations/shared_ptr_toy_impl/main.cpp:21 | the default handle has both pointers null and joins the live handles without changing any count |
| SharedPtr.Handle.Make | toy_implementations/shared_ptr_toy_impl/main.cpp:23-29 | a fresh object holding the value and a fresh counter at 1; all counts stay consistent |
| SharedPtr.Handle.Copy | toy_implementations/shared_ptr_toy_impl/main.cpp:45-52 | the copy shares the object and the counter, the count rises by one, and the heap is that of `Bump` |
| SharedPtr.Handle.Move | toy_implementations/shared_ptr_toy_impl/main.cpp:77-85 | the new handle takes both pointers, the source is nulled, and no count changes |
| SharedPtr.Handle.ReleaseRef | toy_implementations/shared_ptr_toy_impl/main.cpp:58-67 | a non-null handle loses one count, and the object and counter are freed exactly when the old count was 1 |
| SharedPtr.Handle.Destroy | toy_implementations/shared_ptr_toy_impl/main.cpp:31-43 | the destructor releases the reference, and the remaining live handles are still counted |
| SharedPtr.Handle.Share | toy_implementations/shared_ptr_toy_impl/main.cpp:69-73 | the second half of copy assignment: point at `e`'s cell and add one |
| SharedPtr.Handle.CopyAssign | toy_implementations/shared_ptr_toy_impl/main.cpp:54-75 | the new heap is `AssignCopy`; the invariant is kept unless the only handle is assigned to itself, in which case object and counter are freed and the freed counter holds 1 |
| SharedPtr.Handle.Take | toy_implementations/shared_ptr_toy_impl/main.cpp:102-105 | the second half of move assignment: take `e`'s cell and null `e` |
| SharedPtr.Handle.MoveAssign | toy_implementations/shared_ptr_toy_impl/main.cpp:87-109 | the new heap is `AssignMove`, and the invariant is kept |
| SharedPtr.Handle.GetLive | toy_implementations/shared_ptr_toy_impl/main.cpp:111-114 | on a counted handle, `get()` is null exactly when the handle is null, and otherwise points at a live object |
| SharedPtr.AppendNullCounted | toy_implementations/shared_ptr_toy_impl/main.cpp:21 | adding a null handle keeps every count equal to the number of handles on it |
| SharedPtr.AppendFreshCounted | toy_implementations/shared_ptr_toy_impl/main.cpp:23-29 | adding a handle with a fresh counter at 1 keeps the counting invariant |
| SharedPtr.CopyCounted | toy_implementations/shared_ptr_toy_impl/main.cpp:45-52 | copy construction keeps the counting invariant |
| SharedPtr.MoveCounted | toy_implementations/shared_ptr_toy_impl/main.cpp:77-85 | move construction keeps the counting invariant |
| SharedPtr.DestroyCounted | toy_implementations/shared_ptr_toy_impl/main.cpp:31-43 | destroying a non-null handle keeps the invariant over the others; when the count reaches 0, no other live handle points at the freed memory |
| SharedPtr.DestroyNullCounted | toy_implementations/shared_ptr_toy_impl/main.cpp:31-43 | destroying a null handle changes no count |
| SharedPtr.CopyAssignCounted | toy_implementations/shared_ptr_toy_impl/main.cpp:54-75 | copy assignment keeps the invariant between different handles, or when the count is at least 2 |
| SharedPtr.SelfCopyAssignFrees | toy_implementations/shared_ptr_toy_impl/main.cpp:59-71 | self-assignment of the only reference frees object and counter, leaves the handle on freed memory with count 1, and breaks the invariant |
| SharedPtr.MoveAssignCounted | toy_implementations/shared_ptr_toy_impl/main.cpp:87-109 | move assignment between two different handles keeps the invariant |
| SharedPtr.MoveScope | toy_implementations/shared_ptr_toy_impl/main.cpp:146-154 | after the first block, `ptr` alone holds "asdf" at count 1 |
| SharedPtr.CopyScope | toy_implementations/shared_ptr_toy_impl/main.cpp:156-165 | the copy reads `ptr`'s value; "fdsa" is freed; the count peaks at two above the original and returns to it |
| SharedPtr.AssignScope | toy_implementations/shared_ptr_toy_impl/main.cpp:160-164 | copy-assigning `ptr` into the "fdsa" handle frees "fdsa"; afterwards the handle reads `ptr`'s value |
| SharedPtr.MainTrace | toy_implementations/shared_ptr_toy_impl/main.cpp:143-166 | the program copies "asdf", creates "fdsa", frees "fdsa" on assignment with three handles on "asdf", and frees "asdf" at the end |
| StarMath.Cross | starview_plotter/generate_starview.py:41-49 | the cross product is orthogonal to both arguments |
| StarMath.CrossAntiSymmetric | starview_plotter/generate_starview.py:41-49 | `cross(a, b) = -cross(b, a)` |
| StarMath.ReduceSquaresComponents | starview_plotter/generate_starview.py:28 | the `reduce` adds the first component unsquared to the squares of the others |
| StarMath.NormalizeFails | starview_plotter/generate_starview.py:24-31 | a negative radicand is `ValueError`, a zero one is `ZeroDivision`, and a positive one succeeds |
| StarMath.NormalizeUnitLength | starview_plotter/generate_starview.py:24-31 | the result has unit length exactly when `x² = x`, the `reduce` quirk |
| StarMath.ParseAngleFields | starview_plotter/generate_starview.py:12-22 | `d:m…` parses to `(d + m/60 + m/3600)·π/180`, with the minutes read twice |
| StarMath.AngleOfTwoFields | starview_plotter/generate_starview.py:17-22 | the same value from the split fields |
| StarMath.ParseAngleNoColon | starview_plotter/generate_starview.py:17-21 | a numeric field without `:` raises `IndexError` |
| StarMath.OrthoPerpendicular | starview_plotter/generate_starview.py:94-99 | against a unit normal, the orthographic in-plane vector is perpendicular to it |
| StarMath.OrthoAtPole | starview_plotter/generate_starview.py:94-99 | a point on the normal projects to the origin |
| StarMath.InplaneStereo | starview_plotter/generate_starview.py:101-114 | fails with `ZeroDivision` exactly when the normal component of the ray from the projection centre is zero |
| StarMath.StereoPerpendicular | starview_plotter/generate_starview.py:101-114 | against a unit normal, the stereographic in-plane vector is perpendicular to it |
| StarMath.StereoAtAntipode | starview_plotter/generate_starview.py:103-109 | the projection centre itself cannot be projected |
| StarMath.Dispatch | starview_plotter/generate_starview.py:81-84 | "stereo" selects the stereographic projection, and every other mode the orthographic one |
| StarMath.InplaneVector | starview_plotter/generate_starview.py:77-84 | the mode's projection, with orthographic as the fallback |
| StarMath.InplanePerpendicular | starview_plotter/generate_starview.py:77-114 | both projections give vectors in the plane of a unit normal |
| StarMath.PlaneCoordinates | starview_plotter/generate_starview.py:86-92 | one coordinate per basis, each the dot product with the in-plane vector |
| StarMath.BasesOf | starview_plotter/generate_starview.py:150-164 | on success there are two bases |
| StarMath.BasesOrthogonal | starview_plotter/generate_starview.py:150-164 | the second basis is orthogonal to the first and to the normal, and against a unit normal the first lies in the plane |
| StarView.ProjectAllMeaning | starview_plotter/generate_starview.py:179-182 | the loop succeeds exactly when every star projects, and then holds each star's coordinates at its index; otherwise it fails with the first failing star's error |
| StarView.PlotPointOfBases | starview_plotter/generate_starview.py:180 | once `bases` has succeeded, `x, y = star.inplane_coordinate(...)` never raises: a point fails only with its in-plane vector's error, and is otherwise the dot products with the two bases |
| StarView.LabelsAt | starview_plotter/generate_starview.py:183-184 | marker sizes are `BRIGHT_SCALE·(MAX_BRIGHT − magnitude)` and names are in star order |
| StarView.ColumnsAt | starview_plotter/generate_starview.py:181-182 | the x and y columns hold the points' coordinates in order |
| StarView.Star.constructor | starview_plotter/generate_starview.py:55-59 | stores name, parsed angles and magnitude, with an empty coordinate cache |
| StarView.Star.Coordinate | starview_plotter/generate_starview.py:61-75 | returns the spherical-to-Cartesian point, fills the cache, and returns the cached value when present |
| StarView.Star.InplaneVector | starview_plotter/generate_starview.py:77-84 | equals the pure projection of the star's point |
| StarView.Star.InplaneCoordinate | starview_plotter/generate_starview.py:86-92 | equals the pure plane coordinates of the star's point |
| StarView.View.constructor | starview_plotter/generate_starview.py:120-128 | stores the stars and the mode, with empty caches |
| StarView.View.Normal | starview_plotter/generate_starview.py:130-148 | the normalised mean of the stars' points; `AttributeError` without stars; the cache, once set, is kept |
| StarView.View.Bases | starview_plotter/generate_starview.py:150-164 | the normalised first in-plane vector and `cross(normal, b1)`; the caches, once set, are kept |
| StarView.View.Point | starview_plotter/generate_starview.py:180 | one star's plotted point, as the pure specification gives it |
| StarView.View.Save | starview_plotter/generate_starview.py:166-190 | the plot data equal the pure specification |
| StarView.View.SaveStops | starview_plotter/generate_starview.py:179-180 | the first star that fails to project makes `save` fail with its error |
| StarView.NewView | starview_plotter/generate_starview.py:120-128 | succeeds exactly when every star's angles parse, then builds one fresh star per record in order; otherwise fails with the first error |
| StarView.BuildStars | starview_plotter/generate_starview.py:126-128 | one fresh star per record, in record order, with the parsed azimuth and altitude and an empty cache; the first record whose angles do not parse ends the loop with its error |
| StarView.SaveContents | starview_plotter/generate_starview.py:175-188 | on success there is one entry per star, in order, with x, y, size and name as documented |
| Text.SplitPlain | starview_plotter/generate_starview.py:17 | text without the separator splits into itself alone |
| Text.SplitFirst | starview_plotter/generate_starview.py:17 | the part before the first separator comes first, followed by the split of the rest |
| Text.SplitJoin | oathsworn_dice_distribution/prob_dist_json_to_csv.py:14 | splitting a join of separator-free parts gives the parts back |
| Text.NatToString | oathsworn_dice_distribution/prob_dist_json_to_csv.py:14 | `str(n)` is a digit string without a leading zero whose value is n |
| Text.JoinOccurrences | oathsworn_dice_distribution/prob_dist_json_to_csv.py:14 | a join of separator-free parts holds one separator fewer than it has parts |
| Text.IntToString | oathsworn_dice_distribution/prob_dist_json_to_csv.py:18 | `str(int)` uses only '-' and digits |
| Text.ParseIntIntToString | markov_dice_distribution/markov.py:14-15 | `int(str(i)) == i` |
| Text.ParseFloatIntToString | starview_plotter/generate_starview.py:19-21 | `float(str(i)) == i` |
| DiceDistribution.Roll | oathsworn_dice_distribution/gen_prob_dist.py:23 | one face per die of the parameter, each from that die's face list |
| DiceDistribution.TwoZerosBucket | oathsworn_dice_distribution/gen_prob_dist.py:24-25 | a roll with two blanks falls into bucket 0 |
| DiceDistribution.AtMostOneZeroBucket | oathsworn_dice_distribution/gen_prob_dist.py:26-28 | a roll with at most one blank falls into the bucket of its sum |
| DiceDistribution.TallyStep | oathsworn_dice_distribution/gen_prob_dist.py:24-28 | each sample adds one to its bucket's count |
| DiceDistribution.TallyKeys | oathsworn_dice_distribution/gen_prob_dist.py:22-28 | the keys are exactly the buckets that occur |
| DiceDistribution.TallyCount | oathsworn_dice_distribution/gen_prob_dist.py:22-28 | each count is the multiplicity of its bucket |
| DiceDistribution.TallyTotal | oathsworn_dice_distribution/gen_prob_dist.py:21-28 | the counts add up to the number of samples |
| DiceDistribution.NormaliseMass | oathsworn_dice_distribution/gen_prob_dist.py:30 | the total of the normalised values is the total count over 10000 |
| DiceDistribution.GenProbDist | oathsworn_dice_distribution/gen_prob_dist.py:20-31 | the sampling loop computes the normalised tally of the buckets |
| DiceDistribution.DistributionMeaning | oathsworn_dice_distribution/gen_prob_dist.py:20-31 | each value is the bucket's multiplicity over 10000, and only occurring buckets are keys |
| DiceDistribution.DistributionMass | oathsworn_dice_distribution/gen_prob_dist.py:30 | the probabilities add up to the sample count over 10000, which is 1 only for 10000 samples |
| DiceDistribution.FullSampleMass | oathsworn_dice_distribution/gen_prob_dist.py:20-30 | with the default `NO_OF_SAMPLES` samples the probabilities, listed in any order, sum to 1 |
| DiceDistribution.Run | oathsworn_dice_distribution/gen_prob_dist.py:20-50 | exit status -1 exactly when some die of the parameter is unknown; otherwise the distribution of the default 10000 samples, whose probabilities sum to 1 |
| DiceEnumeration.ProductMembers | oathsworn_dice_distribution/gen_all_prob_dist.py:31 | `product(names, repeat=n)` holds exactly the strings of length n over the names |
| DiceEnumeration.ProductSize | oathsworn_dice_distribution/gen_all_prob_dist.py:31 | it has `|names|^n` tuples |
| DiceEnumeration.SortedUnique | oathsworn_dice_distribution/gen_all_prob_dist.py:32-33 | two sorted strings with the same multiset are equal |
| DiceEnumeration.SameKey | oathsworn_dice_distribution/gen_all_prob_dist.py:32-34 | tuples with the same multiset get the same key |
| DiceEnumeration.Sort | oathsworn_dice_distribution/gen_all_prob_dist.py:33 | `buf.sort()` leaves the array sorted and a permutation of its old contents |
| DiceEnumeration.Insert | oathsworn_dice_distribution/gen_all_prob_dist.py:33 | one insertion step extends the sorted prefix and keeps the multiset |
| DiceEnumeration.ParameterOf | oathsworn_dice_distribution/gen_all_prob_dist.py:35-37 | the parameter has exactly the die names as keys |
| DiceEnumeration.ParameterCounts | oathsworn_dice_distribution/gen_all_prob_dist.py:35-37 | dice in the key count at least 1, absent dice count 0, and the counts add up to the key's length |
| DiceEnumeration.LevelKeys | oathsworn_dice_distribution/gen_all_prob_dist.py:31-34 | the keys of level n are exactly the sorted strings of length n over the names |
| DiceEnumeration.AddTuple | oathsworn_dice_distribution/gen_all_prob_dist.py:32-38 | the tuple's sorted key gets a fresh parameter entry and joins the insertion order once |
| DiceEnumeration.LevelStep | oathsworn_dice_distribution/gen_all_prob_dist.py:32-34 | storing one tuple's key adds exactly the keys that tuple sorts to |
| DiceEnumeration.AddLevel | oathsworn_dice_distribution/gen_all_prob_dist.py:31-38 | after one level, the keys are the old ones plus the sorts of its tuples, each with its parameter, and the old order is a prefix |
| DiceEnumeration.Enumerate | oathsworn_dice_distribution/gen_all_prob_dist.py:28-38 | the keys are exactly the sorted strings of 1 to 10 die names, each with its parameter and no distribution |
| DiceEnumeration.Fill | oathsworn_dice_distribution/gen_all_prob_dist.py:42-48 | every entry gets the distribution of `NO_OF_SAMPLES` samples of its own key, and `param_cnt` ends one above the number of keys |
| DiceEnumeration.GenAllProbDist | oathsworn_dice_distribution/gen_all_prob_dist.py:20-53 | the exported table maps every key to its parameter and its distribution of 10000 samples, whose probabilities sum to 1 |
| MarkovDice.MatPow | markov_dice_distribution/markov.py:31-33 | the power of a square matrix is square |
| MarkovDice.MulRowSum | markov_dice_distribution/markov.py:33 | a row sum of a product is the row-weighted sum of the right factor's row sums |
| MarkovDice.FaceMass | markov_dice_distribution/markov.py:18 | `list_of_prob` of a die with F ≥ 1 faces has F entries that add up to 1 |
| MarkovDice.TransitionRowSum | markov_dice_distribution/markov.py:24-29 | rows far from the edge sum to 1, and edge rows to `(states−1−row)/F` |
| MarkovDice.PowSupport | markov_dice_distribution/markov.py:31-33 | after k rolls from state r, only states `r+k` to `r+k·F` have non-zero probability |
| MarkovDice.PowMass | markov_dice_distribution/markov.py:31-33 | after k rolls from a state that cannot reach the edge, the probabilities sum to 1 |
| MarkovDice.UnitSelects | markov_dice_distribution/markov.py:21-35 | the product of `input_vec` (1 at state 0, lines 21-22) with a square matrix is that matrix's row 0 |
| MarkovDice.Output | markov_dice_distribution/markov.py:35 | the output vector has N·F+1 entries |
| MarkovDice.OutputDistribution | markov_dice_distribution/markov.py:35-46 | for N, F ≥ 1 the output sums to 1, and states below N have probability 0 |
| MarkovDice.OutputRow | markov_dice_distribution/markov.py:31-35 | `output_vec[0]` is row 0 of the N-th power of the transition matrix |
| MarkovDice.PowRowZero | markov_dice_distribution/markov.py:31-35 | row 0 of the k-th power sums to 1 and is 0 below state k, when state k·F exists |
| MarkovDice.FillRow | markov_dice_distribution/markov.py:26-28 | fills one row's band with 1/F, clipped at the last state, and leaves other rows alone |
| MarkovDice.BuildTransition | markov_dice_distribution/markov.py:20-29 | the filled array equals the banded transition matrix |
| MarkovDice.Power | markov_dice_distribution/markov.py:31-33 | the loop computes the N-th power, or the matrix itself when N ≤ 1 |
| MarkovDice.Report | markov_dice_distribution/markov.py:38-46 | lists the states from N up with percentages, and totals every entry |
| MarkovDice.Distribution | markov_dice_distribution/markov.py:17-46 | reports the output vector, with a total of 1 for N, F ≥ 1 |
| MarkovDice.Run | markov_dice_distribution/markov.py:10-46 | usage error (status −1) exactly for fewer than two arguments; `ValueError` exactly for bad integers or a negative matrix size; `IndexError` exactly for a zero-sized one; otherwise the report |
| ProbDistCsv.CsvFile.constructor | oathsworn_dice_distribution/prob_dist_json_to_csv.py:12 | a file opened with "w+" starts empty |
| ProbDistCsv.CsvFile.Write | oathsworn_dice_distribution/prob_dist_json_to_csv.py:13 | `write` appends its argument |
| ProbDistCsv.Columns | oathsworn_dice_distribution/prob_dist_json_to_csv.py:14 | `MAX_ROLLS*5` column names |
| ProbDistCsv.Cells | oathsworn_dice_distribution/prob_dist_json_to_csv.py:20 | one cell per column |
| ProbDistCsv.WriteCounts | oathsworn_dice_distribution/prob_dist_json_to_csv.py:17-18 | writes the counts as far as the first missing die, and reports that die |
| ProbDistCsv.WriteRecord | oathsworn_dice_distribution/prob_dist_json_to_csv.py:17-22 | writes one record's text and reports its missing key |
| ProbDistCsv.WriteHeader | oathsworn_dice_distribution/prob_dist_json_to_csv.py:13-15 | appends the header line and a newline |
| ProbDistCsv.WriteRows | oathsworn_dice_distribution/prob_dist_json_to_csv.py:16-22 | appends the records' text up to and including the first failure |
| ProbDistCsv.Export | oathsworn_dice_distribution/prob_dist_json_to_csv.py:12-22 | the written file and the error equal the file specification |
| ProbDistCsv.Convert | oathsworn_dice_distribution/prob_dist_json_to_csv.py:6-22 | the script, with the four die names and 50 columns |
| ProbDistCsv.CountsJoin | oathsworn_dice_distribution/prob_dist_json_to_csv.py:17-19 | the count prefix followed by the joined cells is one comma-joined field list |
| ProbDistCsv.CountsComplete | oathsworn_dice_distribution/prob_dist_json_to_csv.py:17-18 | the counts are written without error exactly when every die name is a key |
| ProbDistCsv.CountsMissing | oathsworn_dice_distribution/prob_dist_json_to_csv.py:17-18 | the first missing die name is the reported `KeyError` |
| ProbDistCsv.CountsPresent | oathsworn_dice_distribution/prob_dist_json_to_csv.py:17-18 | a parameter holding every die name is written without error |
| ProbDistCsv.CountsAbsent | oathsworn_dice_distribution/prob_dist_json_to_csv.py:17-18 | a parameter lacking any die name raises a `KeyError` |
| ProbDistCsv.RecordRow | oathsworn_dice_distribution/prob_dist_json_to_csv.py:17-22 | a record writes without error exactly when it is well-formed, and then as its comma-joined fields and a newline |
| ProbDistCsv.RowFields | oathsworn_dice_distribution/prob_dist_json_to_csv.py:17-21 | a row splits back into its fields, 4 + 50 of them; the counts parse back; each cell is the formatted probability or "0" |
| ProbDistCsv.FieldsPlain | oathsworn_dice_distribution/prob_dist_json_to_csv.py:18-21 | no field contains a comma or a newline |
| ProbDistCsv.OtherKeysIgnored | oathsworn_dice_distribution/prob_dist_json_to_csv.py:19-21 | distribution keys other than "0".."49" do not affect the row |
| ProbDistCsv.EmitRows | oathsworn_dice_distribution/prob_dist_json_to_csv.py:16-22 | well-formed records write one terminated line each, in order |
| ProbDistCsv.EmitFails | oathsworn_dice_distribution/prob_dist_json_to_csv.py:16-22 | the first malformed record stops the output after its partial text, with its error |
| ProbDistCsv.HeaderSplit | oathsworn_dice_distribution/prob_dist_json_to_csv.py:13-14 | the header splits into `A,B,C,D` and the columns, and has no newline |
| ProbDistCsv.HeaderFields | oathsworn_dice_distribution/prob_dist_json_to_csv.py:13-15 | the header has 54 fields `A`..`D`, `0`..`49` |
| ProbDistCsv.FileLines | oathsworn_dice_distribution/prob_dist_json_to_csv.py:12-22 | for well-formed records, the file splits into the header, one line per record, and a final empty piece |
| ProbDistCsv.RowsSplit | oathsworn_dice_distribution/prob_dist_json_to_csv.py:17-22 | every row line splits back into its record's fields |
| ProbDistCsv.ScriptLines | oathsworn_dice_distribution/prob_dist_json_to_csv.py:12-22 | the script's file is the header and one row per record, all 54 fields wide |

## Left out

- File and console I/O: reading and writing JSON, logging, `print`, `argparse`
  and exit codes beyond their values. Each program's input is a parameter and
  its output a returned value.
- Randomness: `random.choice` is replaced by given pick indices. A
  distribution is a function of those picks.
- Floating point: probabilities, angles and coordinates are exact reals.
  So `total` is exactly 1 where the program accumulates rounding.
  - `str(float)` in the CSV is a formatting parameter.
  - The `{:.6f}%` output of `markov.py` is reported as the unformatted
    percentage.
- `math.sqrt`, `math.sin` and `math.cos` cannot be computed over the reals.
  They are parameters (`Maths`), and `math.pi` is the constant Python prints.
- Plotting: matplotlib's figure, scatter, annotations and `savefig` are left
  out. `save` returns the columns it would plot. `main()` of the plotter,
  which only opens the file and picks the "stereo" mode, is left out.
- numpy: matrices are sequences of rows and `numpy.matmul` is a value
  function. Only the transition matrix is a mutable `array2`; the power loop
  works on values.
- `int()` and `float()` accept an optional sign and ASCII digits, plus a
  fraction for `float`. Whitespace, underscores, exponents and `inf`/`nan` are
  not modelled.
- `size_t` wrap-around: reference counts are unbounded naturals.
- Dictionary iteration order is modelled by an explicit insertion-order
  sequence in the enumeration. JSON turns integer sums into string keys; the
  CSV records carry string keys for that reason.
- SharedPtr.Handle.Copy: requires a non-null source. Copying a null handle
  dereferences a null counter, which is undefined behaviour.
- SharedPtr.Handle.Move: requires a non-null source. The log line after
  moving from a null handle dereferences a null counter.
- SharedPtr.Handle.CopyAssign: requires a non-null source, for the same
  reason.
- SharedPtr.Handle.MoveAssign: requires two different handles and a non-null
  source. Self move-assignment is not modelled: it nulls the source, which is
  the handle itself, and the next line then dereferences its null counter, so
  it is always a null dereference. A null source is dereferenced the same way.
- DiceDistribution.Roll: requires every pick to be an index into its die's
  faces, so a die with an empty face list, on which `random.choice` raises
  `IndexError`, is not modelled.
- DiceDistribution.GenProbDist: inherits that requirement for every sample.
- DiceEnumeration.Enumerate: states that `order` lists every key exactly once,
  not that it lists them in the order of their first insertion.
- The log messages and the `this` addresses printed by `main.cpp` are left out.
