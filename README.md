# miso_enrichment in Dafny

A verified model of the core of *miso_enrichment*, a cyclus plug-in for
multi-isotope uranium enrichment. The model has five independent parts,
one module each, plus two small shared modules.

- `MultiIsotopeHelper` (`multi_isotope_helper.dfy`) covers the C++ helpers. It has the
  table of the six uranium nuclide ids (U-232 to U-238 without U-237) and the
  conversions between mass number and nuclide id. It also has the uranium
  share of one isotope in an atom or mass composition map, and the stage
  separation factors derived from one U-235 factor, which the C++ side
  squares first.
- `Calculator` (`calculator.dfy`) covers the Python class `Multi_isotope`. This includes the
  input checks, the validating setters and the `uptodate` cache flag they
  clear. It also includes the linear centrifuge separation factors, the
  concentration balance of `calculate_concentrations`, and the choice of the
  binding flow plus the SWU cap of `calculate_flows`. The per-isotope
  enriching and stripping factors `e` and `s`, and the value-function
  values, are parameters. The model never computes powers, roots or
  logarithms.
- `PythonEnrichment` (`python_enrichment.dfy`) covers the C++ bridge to the Python calculator.
  This includes the exchange file name built from a uid, and the JSON request
  document with its normalised feed keyed by the decimal nuclide id. It
  proves that the document binds to the keyword parameters of
  `Multi_isotope.__init__`. It also covers the error sequence of
  `RunEnrichment` over a modelled file system.
- `Gpr` (`gpr_reactor.dfy`) covers the `GprReactor` archetype. Its core, fresh and spent fuel
  buffers are sequences of assembly ids. The module models transmuting,
  discharging and loading, and the per-commodity grouping of spent fuel
  (`PeekSpent_`, `PopSpent_`, `PushSpent_`). It also models trade
  acceptance and trade serving, the order count of `GetMatlRequests`, and
  `Tick`/`Tock`. Transmutation is a set of transmuted assembly ids.
- `Irm` (`irm_reactor.dfy`) covers the `IRMReactor` archetype. It models the constructor's
  defaults and `EnterNotify`: default preferences, the hybrid flag, and the
  five length checks on the parallel change lists, all of which report
  before a ValueError is thrown.
- The shared `Wrappers` (`wrappers.dfy`) holds `Option`, `Result`, `Outcome`
  and the cyclus and Python error kinds. `Decimal` (`decimal.dfy`) holds the
  decimal rendering of naturals (`std::to_string`) and its inverse.

Exceptions are `Fail`/`Failure` values that carry the error kind and,
where the source builds one, the message. Quantities are `real`. Integers
are unbounded, since no integer in the modelled code gets near its C++
width.

## Model

| member | source | states |
|---|---|---|
| Decimal.NatToString | src/python_enrichment.cc:103 | the rendering of a natural is a non-empty string of decimal digits |
| Decimal.ParseRendered | src/python_enrichment.cc:103 | parsing the rendering of `n` gives back `n` |
| Decimal.NatToStringInjective | src/python_enrichment.cc:103 | distinct naturals render differently |
| Decimal.NoLeadingZero | src/python_enrichment.cc:103 | a rendering starts with '0' exactly when the number is 0 |
| MultiIsotopeHelper.IsotopesNucID | src/multi_isotope_helper.cc:10-15 | the output is exactly 922320000, 922330000, 922340000, 922350000, 922360000, 922380000, in that order |
| MultiIsotopeHelper.IsotopeToNucID | src/multi_isotope_helper.cc:18-27 | succeeds exactly for the six mass numbers, giving the id at the same position of the table; otherwise a ValueError |
| MultiIsotopeHelper.NucIDToIsotope | src/multi_isotope_helper.cc:30-40 | succeeds exactly for the six ids, giving the mass number at the same position; otherwise a ValueError |
| MultiIsotopeHelper.IsotopeRoundTrip | src/multi_isotope_helper.cc:18-40 | the two conversions undo each other on the table, in both directions |
| MultiIsotopeHelper.MultiIsotopeAtomFrac | src/multi_isotope_helper.cc:84-103 | the summing loop returns the isotope's entry divided by the sum of the entries of the six uranium ids present |
| MultiIsotopeHelper.MultiIsotopeMassFrac | src/multi_isotope_helper.cc:117-136 | the same rule on a mass map |
| MultiIsotopeHelper.MultiIsotopeAtomFracOfComp | src/multi_isotope_helper.cc:73-76 | the composition overload is the share in the composition's atom map |
| MultiIsotopeHelper.MultiIsotopeAtomFracOfMaterial | src/multi_isotope_helper.cc:79-81 | the material overload is the share in its composition's atom map |
| MultiIsotopeHelper.MultiIsotopeMassFracOfComp | src/multi_isotope_helper.cc:106-109 | the composition overload is the share in the composition's mass map |
| MultiIsotopeHelper.MultiIsotopeMassFracOfMaterial | src/multi_isotope_helper.cc:112-114 | the material overload is the share in its composition's mass map |
| MultiIsotopeHelper.MultiIsotopeAtomAssay | src/multi_isotope_helper.cc:53-55 | the atom assay is the U-235 share of the map |
| MultiIsotopeHelper.MultiIsotopeAtomAssayOfComp | src/multi_isotope_helper.cc:43-45 | the atom assay of a composition is the U-235 share of its atom map |
| MultiIsotopeHelper.MultiIsotopeAtomAssayOfMaterial | src/multi_isotope_helper.cc:48-50 | the atom assay of a material is the U-235 share of its atom map |
| MultiIsotopeHelper.MultiIsotopeMassAssay | src/multi_isotope_helper.cc:68-70 | the mass assay is the U-235 share of the map |
| MultiIsotopeHelper.MultiIsotopeMassAssayOfComp | src/multi_isotope_helper.cc:58-60 | the mass assay of a composition is the U-235 share of its mass map |
| MultiIsotopeHelper.MultiIsotopeMassAssayOfMaterial | src/multi_isotope_helper.cc:63-65 | the mass assay of a material is the U-235 share of its mass map |
| MultiIsotopeHelper.UraniumShareBounds | src/multi_isotope_helper.cc:84-103 | for non-negative entries every uranium share lies in [0, 1] |
| MultiIsotopeHelper.SharesSumToOne | src/multi_isotope_helper.cc:84-103 | the six uranium shares of a composition add up to 1 |
| MultiIsotopeHelper.NonUraniumIgnored | src/multi_isotope_helper.cc:91-100 | adding or changing a non-uranium entry changes neither the uranium total nor any share |
| MultiIsotopeHelper.CalculateSeparationFactor | src/multi_isotope_helper.cc:139-156 | the keys are exactly the six ids, each mapped to 1 + (238 - A)(g*g - 1)/3 |
| MultiIsotopeHelper.SeparationFactorAnchors | src/multi_isotope_helper.cc:146-153 | U-238 gets 1 and U-235 gets the squared factor g*g |
| MultiIsotopeHelper.SeparationFactorDecreasing | src/multi_isotope_helper.cc:148-153 | for g > 1 the factors strictly decrease as the mass number grows |
| Calculator.Zeros | misoenrichment/misoenrichment/calculator.py:92-94 | six non-negative zeros |
| Calculator.Normalise | misoenrichment/misoenrichment/calculator.py:222 | dividing by a non-zero sum gives a vector of the same length summing to 1 |
| Calculator.NormalisePreservesSign | misoenrichment/misoenrichment/calculator.py:222 | normalising a non-negative vector keeps it non-negative |
| Calculator.SumScaled | misoenrichment/misoenrichment/calculator.py:199 | dividing every entry by c divides the sum by c |
| Calculator.CheckInput | misoenrichment/misoenrichment/calculator.py:124-145 | passes exactly when max_swu > 0 and not all of feed, product and SWU exceed 1e298; every failure is a ValueError |
| Calculator.FirstInvalid | misoenrichment/misoenrichment/calculator.py:211-218 | the first nuclide, in table order, whose given value is outside [0, 1), or 6 when there is none |
| Calculator.OverwriteStep | misoenrichment/misoenrichment/calculator.py:211-219 | one more slot is overwritten with the given value when the nuclide is given, and left as it was otherwise |
| Calculator.CentrifugeAlpha | misoenrichment/misoenrichment/calculator.py:265-270 | alpha_i = 1 + (238 - A_i)(alpha_235 - 1)/3 for each isotope (2 M* - ISOTOPES[3] equals ISOTOPES[5]), so U-238 gets 1 and U-235 gets alpha_235 |
| Calculator.DeviationSquared | misoenrichment/misoenrichment/calculator.py:309-312 | `None` exactly when a target assay is zero (the source's division by it gives inf/NaN); otherwise the squared relative deviation is non-negative, and zero exactly when both U-235 assays hit their targets |
| Calculator.TermsAddUp | misoenrichment/misoenrichment/calculator.py:336-337 | one isotope's enriching and stripping terms add up to its feed fraction |
| Calculator.ESum | misoenrichment/misoenrichment/calculator.py:336 | e_sum is positive for a non-negative feed with a positive sum |
| Calculator.SSum | misoenrichment/misoenrichment/calculator.py:337 | s_sum is positive for a non-negative feed with a positive sum |
| Calculator.SectionTermsPositive | misoenrichment/misoenrichment/calculator.py:336-337 | both section sums are positive when the feed is non-negative with a positive sum |
| Calculator.SectionSumsAddUp | misoenrichment/misoenrichment/calculator.py:336-337 | e_sum + s_sum equals the sum of the feed |
| Calculator.CompositionsNormalised | misoenrichment/misoenrichment/calculator.py:339-340 | the product and tails compositions each sum to 1 |
| Calculator.IsotopeBalance | misoenrichment/misoenrichment/calculator.py:336-340 | each isotope balances: xf_i = e_sum * xp_i + s_sum * xt_i |
| Calculator.BindingFlows | misoenrichment/misoenrichment/calculator.py:351-360 | either f is the user's feed and p = f * e_sum is below the user's product, or p is the user's product and f = p / e_sum; always t = f * s_sum, and neither bound is exceeded |
| Calculator.CalculatedFlows | misoenrichment/misoenrichment/calculator.py:351-372 | p = f * e_sum and t = f * s_sum, the SWU is that of the flows and at most the user's limit, the uncapped flows are kept when their SWU is within the limit, and otherwise the SWU equals the limit |
| Calculator.Swu | misoenrichment/misoenrichment/calculator.py:290-299 | no feed, product or tails flow means no separative work |
| Calculator.SwuBalanced | misoenrichment/misoenrichment/calculator.py:290-299 | when the feed splits into product and tails, the separative work is the value the product and the tails gain over their share of the feed |
| Calculator.SwuScales | misoenrichment/misoenrichment/calculator.py:290-299 | scaling feed, product and tails by k scales the separative work by k, as the SWU cap of calculate_flows relies on |
| Calculator.CappedFeed | misoenrichment/misoenrichment/calculator.py:363-372 | the capped feed is positive and below the uncapped feed |
| Calculator.FlowsConserveMass | misoenrichment/misoenrichment/calculator.py:351-372 | f = p + t whenever e_sum + s_sum = 1 |
| Calculator.MultiIsotope.Init | misoenrichment/misoenrichment/calculator.py:67-122 | the outcome is check_input's exception, else the first failing setter's, else success; on success the feed is the normalised given composition, the targets, process, bounds and centrifuge factors are as given, flows are 0, stages are 100 and the cache is stale |
| Calculator.MultiIsotope.Build | misoenrichment/misoenrichment/calculator.py:92-103 | after check_input: the first failing setter's exception on a feed vector that starts as zeros; on success the normalised feed, the targets, the process and the centrifuge factors as given (`Configured`) and a stale cache |
| Calculator.InitAccepts | misoenrichment/misoenrichment/calculator.py:88-103 | the model's `Init` succeeds exactly when one quantity is bounded, max_swu > 0, the feed names only uranium nuclides including U-235 with values in [0, 1) that do not all vanish (the all-zero feed is the SetFeedComposition deviation under "Left out"), the product target lies in [0, 1] above the normalised U-235 share, the tails target in [0, 1] below it, and the process is known |
| Calculator.ValuesInRange | misoenrichment/misoenrichment/calculator.py:210-214 | for a feed of allowed nuclides, the slot loop finds no bad value exactly when every value lies in [0, 1) |
| Calculator.NotAllZero | misoenrichment/misoenrichment/calculator.py:240 | a vector with a non-zero sum has a non-zero entry, so a normalised feed always makes the tails check compare with the feed |
| Calculator.MultiIsotope.ClearVectors | misoenrichment/misoenrichment/calculator.py:88-94 | stale cache, M* = 350.5, zeroed composition vectors |
| Calculator.MultiIsotope.ClearFlows | misoenrichment/misoenrichment/calculator.py:107-116 | zero flows, the user's bounds stored, 100 stages in each section |
| Calculator.MultiIsotope.Configure | misoenrichment/misoenrichment/calculator.py:96-103 | the setters run in order and the outcome is the first one's exception, or success; on success the feed is the normalised composition and the targets, process and centrifuge factors are as given |
| Calculator.MultiIsotope.SetAssays | misoenrichment/misoenrichment/calculator.py:96-98 | the outcome is the first exception of the feed, product and tails setters, the latter two checked against the new feed; on success the feed is the normalised composition and both targets are stored |
| Calculator.MultiIsotope.SetProcess | misoenrichment/misoenrichment/calculator.py:100-103 | passes exactly for a known process, with set_enrichment_process's ValueError otherwise; on success the process is stored and centrifuge factors are set; feed and targets are untouched |
| Calculator.MultiIsotope.SetFeedComposition | misoenrichment/misoenrichment/calculator.py:202-222 | a KeyError leaves everything unchanged; a missing U-235 is a ValueError; an invalid value is a ValueError after the earlier slots were written; otherwise the given slots are overwritten, the rest kept, and the result normalised to sum 1 |
| Calculator.MultiIsotope.WriteFeedSlots | misoenrichment/misoenrichment/calculator.py:211-219 | the loop stops at the first invalid nuclide, having overwritten exactly the slots before it |
| Calculator.MultiIsotope.SetFeedCompositionArray | misoenrichment/misoenrichment/calculator.py:185-200 | rejects a wrong shape or a value outside [0, 1) with everything unchanged, otherwise clears uptodate and stores the normalised array (an all-zero array is a RuntimeError) |
| Calculator.MultiIsotope.SetProductEnrichment | misoenrichment/misoenrichment/calculator.py:224-234 | accepts exactly 0 <= xp <= 1 with xp above the feed's U-235; on success stores it and clears the cache; a ValueError changes nothing |
| Calculator.MultiIsotope.SetTailsEnrichment | misoenrichment/misoenrichment/calculator.py:236-246 | accepts exactly 0 <= xt <= 1, unless xt >= the feed's U-235 while some feed entry is non-zero; a ValueError changes nothing |
| Calculator.MultiIsotope.SetEnrichmentProcess | misoenrichment/misoenrichment/calculator.py:248-256 | accepts exactly "centrifuge" and "diffusion"; a ValueError changes nothing |
| Calculator.MultiIsotope.SetAlpha | misoenrichment/misoenrichment/calculator.py:258-270 | a centrifuge gets the linear factors; any other process keeps the previous factors |
| Calculator.MultiIsotope.DifferenceConcentration | misoenrichment/misoenrichment/calculator.py:301-312 | `None` exactly when user_xp or user_xt is zero; otherwise non-negative, and zero exactly when xp[3] = user_xp and xt[3] = user_xt |
| Calculator.MultiIsotope.CalculateConcentrations | misoenrichment/misoenrichment/calculator.py:314-342 | xp and xt are the balance compositions, each summing to 1, and the result is their deviation from the targets |
| Calculator.MultiIsotope.CalculateFlows | misoenrichment/misoenrichment/calculator.py:344-372 | the flows are the binding flows after the SWU cap, and the SWU never exceeds the user's limit |
| Calculator.MultiIsotope.CalculateStaging | misoenrichment/misoenrichment/calculator.py:396-410 | an up-to-date calculator returns its stored stages; otherwise the search starts and bounds of the process, or a ValueError for an unknown process |
| Calculator.SetterInvalidatesCache | misoenrichment/misoenrichment/calculator.py:396-397 | after a successful product setter, staging searches again; after a rejected one, a cached result is kept |
| PythonEnrichment.FileName | src/python_enrichment.cc:19-27 | the stem, then "_" and the uid when the uid is non-empty, then ".json" |
| PythonEnrichment.UidOf | src/python_enrichment.cc:19-27 | a recovered uid renders back to the same file name |
| PythonEnrichment.UidRoundTrip | src/python_enrichment.cc:19-27 | the uid is recovered from its file name |
| PythonEnrichment.FileNameInjective | src/python_enrichment.cc:19-27 | different uids never share an exchange file |
| PythonEnrichment.Normalize | src/python_enrichment.cc:96 | same keys; for a non-zero sum every entry is divided by it and the result sums to 1 |
| PythonEnrichment.MapSumScaled | src/python_enrichment.cc:96 | dividing every entry by c divides the sum by c |
| PythonEnrichment.IdKey | src/python_enrichment.cc:103 | the decimal rendering of an id, with a leading '-' exactly for negative ids |
| PythonEnrichment.IdKeyInjective | src/python_enrichment.cc:103 | distinct ids get distinct keys |
| PythonEnrichment.UraniumKeys | src/python_enrichment.cc:100-103 | the key of the i-th uranium id is the i-th nuclide name the calculator allows |
| PythonEnrichment.FeedFractionsContents | src/python_enrichment.cc:100-105 | a key is written exactly when some id renders to it with a fraction not almost zero, and its value is that fraction |
| PythonEnrichment.WrittenFeedNuclides | src/python_enrichment.cc:96-105 | every written key is an allowed nuclide, its value is the normalised fraction, and U-235 is written exactly when its fraction is not almost zero |
| PythonEnrichment.FeedEntries | src/python_enrichment.cc:100-105 | the loop writes exactly the feed fractions and their JSON object |
| PythonEnrichment.BuildDocument | src/python_enrichment.cc:94-112 | the loop-built document equals the request document |
| PythonEnrichment.RequestDocumentKeys | src/python_enrichment.cc:100-112 | every key of the document is a keyword of `Multi_isotope.__init__`, the scalars are written under their own names and gamma_235 under "alpha_235" |
| PythonEnrichment.SeparationFactorConventions | src/multi_isotope_helper.cc:146-152 | the helper's factors for beta equal the calculator's centrifuge factors for beta*beta |
| PythonEnrichment.FractionsOfFeedObject | misoenrichment/misoenrichment/calculator.py:153-156 | reading back a written feed object gives the written fractions |
| PythonEnrichment.BindInitArgs | misoenrichment/misoenrichment/calculator.py:67-78 | an unknown keyword or a missing required one is a TypeError; a successful binding takes every argument from the document or its default (a value of the wrong JSON kind is refused, see Left out) |
| PythonEnrichment.BindRequestDocument | misoenrichment/misoenrichment/calculator.py:153-156 | a request with a non-empty feed binds, and the calculator receives exactly the written fractions and scalars |
| PythonEnrichment.EmptyFeedUnbound | misoenrichment/misoenrichment/calculator.py:67-78 | a request whose every fraction was almost zero lacks feed_composition and fails to bind |
| PythonEnrichment.Bridge.constructor | src/python_enrichment.cc:19-27 | stores the uid and its file name |
| PythonEnrichment.Bridge.Default | src/python_enrichment.cc:17 | the default constructor uses the empty uid, so the file name has no suffix |
| PythonEnrichment.Bridge.ParamsToOutFile | src/python_enrichment.cc:83-126 | writes the request document to the exchange file; with deletion requested, the file is removed or an IOError leaves it in place |
| PythonEnrichment.Bridge.WriteRequest | src/python_enrichment.cc:94-116 | the exchange file holds exactly the request document and nothing else changes |
| PythonEnrichment.Bridge.EnrichmentResults | src/python_enrichment.cc:30-44 | the file's document, or an IOError naming the file when it is missing |
| PythonEnrichment.Bridge.RunEnrichment | src/python_enrichment.cc:47-81 | a nonzero exit code is an Error before any read, then a missing result is an IOError, then a failed delete is an IOError, and otherwise the results come back with the file removed |
| PythonEnrichment.OverwriteThenLeave | src/python_enrichment.cc:57-80 | the file system after a run depends only on what the calculator left, not on the request written |
| PythonEnrichment.ExitCodeDetectsFailure | src/python_enrichment.cc:62-70 | with exit codes 0 or -1 the summed code is 0 exactly when both runs succeeded |
| PythonEnrichment.Workspace.Write | src/python_enrichment.cc:114-116 | a truncating write replaces the file's document |
| PythonEnrichment.Workspace.Remove | src/python_enrichment.cc:75-79 | 0 and the file gone exactly when it existed and is deletable; nonzero and nothing changed otherwise |
| Gpr.CeilDiv | src/gpr_reactor.cc:232-235 | the ceiling of a / b for a positive divisor |
| Gpr.CyclesLeft | src/gpr_reactor.cc:118-122 | the ceiling of (time left - time left in the cycle) / (cycle + refuel time) |
| Gpr.FirstUnnamed | src/gpr_reactor.cc:398-403 | the first assembly of a buffer whose index has no out-commodity |
| Gpr.Group | src/gpr_reactor.cc:357-366 | grouping succeeds exactly when every assembly has an out-commodity, and each list holds the buffer's assemblies of that commodity in buffer order |
| Gpr.Reverse | src/gpr_reactor.cc:381 | `std::reverse` |
| Gpr.ReverseReverse | src/gpr_reactor.cc:451-460 | reversing twice restores a list |
| Gpr.FilterFlatten | src/gpr_reactor.cc:454-459 | what is pushed back holds for each commodity its list, reversed |
| Gpr.SortedKeysOrder | src/gpr_reactor.cc:453-454 | a `std::map` iteration visits every key once, in ascending order of `std::string`'s `<` |
| Gpr.SortedKeysStep | src/gpr_reactor.cc:453-454 | the iteration starts at the least key and continues with the others in order |
| Gpr.LeastExists | src/gpr_reactor.cc:453-454 | every non-empty set of keys has a least key under `std::string`'s `<` |
| Gpr.StrLessTotal | src/gpr_reactor.cc:453-454 | of two different strings one is less than the other, so the key order is total |
| Gpr.PopPushRoundTrip | src/gpr_reactor.cc:451-460 | popping and pushing back, in any key order, keeps each commodity's assemblies in their order and keeps the multiset of assemblies |
| Gpr.SameFiltersSameMultiset | src/gpr_reactor.cc:451-460 | buffers with the same per-commodity lists hold the same assemblies |
| Gpr.Taken | src/gpr_reactor.cc:214-217 | the number of the first k trades for one commodity is at most k |
| Gpr.Served | src/gpr_reactor.cc:214-218 | one served assembly per trade |
| Gpr.ServedOldestFirst | src/gpr_reactor.cc:214-218 | each trade receives its commodity's oldest assembly not yet served |
| Gpr.FilterServed | src/gpr_reactor.cc:214-218 | the assemblies of a commodity served so far are the oldest ones of its list, in order |
| Gpr.Remaining | src/gpr_reactor.cc:214-221 | the left-over lists keep the grouping's keys |
| Gpr.ServeStep | src/gpr_reactor.cc:216-217 | serving a trade pops the back of its commodity's reversed list and leaves the other lists alone |
| Gpr.RemainingConsistent | src/gpr_reactor.cc:214-221 | every left-over list holds only assemblies of its commodity |
| Gpr.LeftInOrder | src/gpr_reactor.cc:213-221 | after serving, the buffer holds for each commodity the rest of its assemblies, in the original order |
| Gpr.ServeConserves | src/gpr_reactor.cc:213-221 | every assembly is either served or pushed back, and none is duplicated |
| Gpr.GroupConsistent | src/gpr_reactor.cc:357-366 | a grouping's lists hold only assemblies of their own commodity |
| Gpr.FirstIndex | src/gpr_reactor.cc:428-433 | the first position of the commodity |
| Gpr.FirstUnsupported | src/gpr_reactor.cc:176-179 | the first delivery whose commodity the reactor does not take |
| Gpr.IndexRoundTrip | src/gpr_reactor.cc:427-436 | an assembly received as the i-th in-commodity is read back with index i |
| Gpr.Movable | src/gpr_reactor.cc:245-247 | how many fresh assemblies fit one after another; when not all do, the next one does not fit |
| Gpr.MoveFreshMoves | src/gpr_reactor.cc:245-247 | the move takes the longest prefix of the fresh buffer that fits, in order |
| Gpr.MoveFreshStops | src/gpr_reactor.cc:245-247 | afterwards nothing is waiting or there is no room, and no assembly is lost |
| Gpr.MoveWhileRoom | src/gpr_reactor.cc:245-247 | the loop computes the move |
| Gpr.ServeAll | src/gpr_reactor.cc:214-220 | the serving loop produces the served assemblies, the left-over lists and the index without the served ids |
| Gpr.IndexIn | src/gpr_reactor.cc:427-436 | the search on an index value: a ValueError for an unsupported commodity, otherwise the first position recorded |
| Gpr.Place | src/gpr_reactor.cc:181-187 | a delivery goes to the core while it has free slots, then to the fresh buffer |
| Gpr.CoreShare | src/gpr_reactor.cc:181-187 | how many deliveries the core takes is at most the number of deliveries |
| Gpr.ReverseEach | src/gpr_reactor.cc:379-382 | the reversal loop reverses every list |
| Gpr.FlattenEach | src/gpr_reactor.cc:453-459 | the push loop appends every list reversed, visiting the commodities in ascending `std::string` order |
| Gpr.GprReactor.constructor | src/gpr_reactor.cc:16-41 | every list empty, every count, time and size zero, no transmute-all, not discharged, hybrid, no exit time |
| Gpr.GprReactor.OutCommod | src/gpr_reactor.cc:398-404 | the out-commodity at the assembly's index, or a KeyError exactly when the index is out of range |
| Gpr.GprReactor.OutRecipe | src/gpr_reactor.cc:418-424 | the out-recipe at the assembly's index, or a KeyError exactly when the index is out of range |
| Gpr.GprReactor.IndexRes | src/gpr_reactor.cc:427-436 | a ValueError with the index unchanged for an unsupported commodity; otherwise the first position of the commodity is recorded |
| Gpr.GprReactor.GroupByOutCommod | src/gpr_reactor.cc:361-364 | the loop computes the grouping |
| Gpr.GprReactor.PeekSpent | src/gpr_reactor.cc:357-366 | the spent buffer unchanged and grouped, or a KeyError |
| Gpr.GprReactor.PopSpent | src/gpr_reactor.cc:369-384 | the spent buffer is emptied and its grouping returned with every list reversed, or a KeyError |
| Gpr.GprReactor.PushSpent | src/gpr_reactor.cc:451-460 | each list is appended reversed to the spent buffer, the commodities in ascending order |
| Gpr.GprReactor.Transmute | src/gpr_reactor.cc:508-524 | the core's contents and order are unchanged, and exactly its first min(n, core size) assemblies are transmuted, or a KeyError for one without an out-recipe |
| Gpr.GprReactor.RotateFront | src/gpr_reactor.cc:509-514 | popping the front and rotating back leaves the core as it was |
| Gpr.GprReactor.Discharge | src/gpr_reactor.cc:325-349 | with too little spent room, false and no buffer changes; otherwise the first min(batch, core size) core assemblies go to the back of spent, and no assembly is lost |
| Gpr.GprReactor.Load | src/gpr_reactor.cc:439-448 | min(free core slots, fresh count) assemblies move from the front of fresh to the back of the core, which is afterwards full or fresh is empty |
| Gpr.GprReactor.AcceptMatlTrades | src/gpr_reactor.cc:162-189 | deliveries up to the first unsupported one are indexed and fill the core up to its size, then the fresh buffer; an unsupported commodity is a ValueError |
| Gpr.GprReactor.GetMatlTrades | src/gpr_reactor.cc:209-222 | each trade gets its commodity's oldest spent assembly, the served ids leave the index, and the spent buffer becomes the unserved rest of each commodity, in order, the commodities in ascending order |
| Gpr.GprReactor.EnterNotify | src/gpr_reactor.cc:192-206 | empty preferences become one default preference per out-commodity; the hybrid flag is cleared exactly when there are no side products |
| Gpr.GprReactor.OrderCount | src/gpr_reactor.cc:111-126 | the free places of core and fresh buffer, capped near retirement by max(0, needed) |
| Gpr.GprReactor.GetMatlRequests | src/gpr_reactor.cc:111-155 | no portfolio when the count is 0 or the reactor is retired, otherwise one per assembly, each requesting every in-commodity with its preference, recipe and assembly size |
| Gpr.GprReactor.MoveFreshToSpent | src/gpr_reactor.cc:245-247 | the fresh buffer's front moves to spent while room is left, ending with no fresh assembly or no room, and no assembly is lost |
| Gpr.GprReactor.DischargeAll | src/gpr_reactor.cc:239-243 | the core and spent buffer become DischargedAll's: whole batches move in order from the front of the core to the back of spent while they fit, stopping at the first bookkeeping KeyError; no assembly is lost |
| Gpr.DischargedAll | src/gpr_reactor.cc:239-243 | the discharge loop only moves the core's front to the back of spent, and a pass ends with an empty core or no room for the next batch |
| Gpr.DischargedAllWithinSlots | src/gpr_reactor.cc:325-335 | a spent buffer within n_assem_spent stays within it through the discharge loop |
| Gpr.GprReactor.Tick | src/gpr_reactor.cc:225-275 | retired: transmutes the exit batch once, in the step after the exit time; unless that fails, whole batches move from the core's front to the back of spent while they fit, fresh fuel follows it, and the reactor is decommissioned exactly when core and spent are empty. Operating: the due discharge gives the new core, spent buffer and discharged flag, and from cycle end on the free core slots are loaded from the front of fresh; at the cycle end the first batch, up to the first without an out-recipe, is transmuted. No assembly is ever lost |
| Gpr.GprReactor.RetiredTick | src/gpr_reactor.cc:227-252 | transmutes the exit batch, up to the first without an out-recipe, only in the step after the exit time; a failed transmutation moves nothing, otherwise the new buffers are those of the emptying |
| Gpr.GprReactor.EmptyAfterExit | src/gpr_reactor.cc:239-250 | the retired reactor's emptying once the exit transmutation passed: the discharge loop's buffers and KeyError, the fresh assemblies moved while the spent buffer has room, decommissioning when core and spent buffer are empty; the multiset of assemblies is kept |
| Gpr.GprReactor.Empty | src/gpr_reactor.cc:239-250 | the discharge loop's result (DischargedAll); unless its bookkeeping fails, fresh fuel follows while there is room; decommissioned exactly when core and spent are empty |
| Gpr.GprReactor.MoveAfterDischarge | src/gpr_reactor.cc:239-250 | after the discharge loop, a KeyError ends the step with fresh fuel and the flag untouched; otherwise fresh fuel moves while there is room and decommissioning follows the condition; assemblies are kept and the core stays within its slots |
| Gpr.GprReactor.MoveAndDecommission | src/gpr_reactor.cc:245-250 | fresh and spent become exactly the move of fresh fuel while there is room, then decommissioning exactly when core and spent are empty |
| Gpr.GprReactor.Retired | src/gpr_reactor.cc:352-354 | never retired without an exit time (-1); with one, retired exactly from the step after the exit time on |
| Gpr.GprReactor.RetiredStays | src/gpr_reactor.cc:352-354 | retirement is permanent: retired at one step, retired at every later step |
| Gpr.GprReactor.CheckDecommissionCondition | src/gpr_reactor.cc:319-321 | true exactly when core and spent buffer are empty |
| Gpr.GprReactor.DecommissionHoldsOnlyFresh | src/gpr_reactor.cc:319-321 | the condition holds exactly when every assembly the reactor still holds is fresh |
| Gpr.GprReactor.TransmuteAtExit | src/gpr_reactor.cc:230-237 | the core is unchanged; in the step right after the exit time the whole core or its first half, up to the first without an out-recipe, is transmuted, and nothing otherwise |
| Gpr.GprReactor.OperatingTick | src/gpr_reactor.cc:255-271 | a failed transmutation at cycle end moves nothing; otherwise the due discharge gives the core, spent buffer and flag (set exactly when the batch found room), and from cycle end on the core is loaded from the front of fresh; the transmuted set grows by the first batch up to the first without an out-recipe, at the cycle end only |
| Gpr.GprReactor.LoadAfterDischarge | src/gpr_reactor.cc:266-270 | after the due discharge, the load follows from the cycle end on unless the discharge's bookkeeping failed, giving the operating tick's buffers; afterwards the core is full or the fresh buffer empty |
| Gpr.GprReactor.DischargeAndLoad | src/gpr_reactor.cc:260-270 | from cycle end on, the due discharge and then, unless its bookkeeping fails, the load, with the resulting buffers and flag |
| Gpr.GprReactor.TransmuteAtCycleEnd | src/gpr_reactor.cc:255-258 | the core is unchanged; exactly at the end of the cycle its first batch, up to the first without an out-recipe, is transmuted, and nothing otherwise |
| Gpr.GprReactor.DischargeDue | src/gpr_reactor.cc:263-265 | no change before cycle end or once discharged; otherwise core and spent become Discharge_'s result and discharged becomes whether there was room for the batch |
| Gpr.GprReactor.Tock | src/gpr_reactor.cc:278-315 | nothing when retired; otherwise reset to step 0 exactly when the cycle and refuelling are over, the core is full and it was discharged; power while in the cycle with a full core; the step advances exactly when it is positive or the core is full |
| Irm.Line | src/irm_reactor.cc:77-100 | one error line names the prototype, the list, its size and the expected size, and ends in a newline |
| Irm.Lines | src/irm_reactor.cc:75-100 | one line per failed check, in check order; none exactly when every check passes |
| Irm.LinesCount | src/irm_reactor.cc:75-100 | the number of lines is the number of mismatched lists |
| Irm.JoinEmpty | src/irm_reactor.cc:101-103 | the joined report is empty exactly when there are no lines |
| Irm.Report | src/irm_reactor.cc:76-100 | the stream loop appends exactly the lines of the failed checks |
| Irm.DefaultPrefs | src/irm_reactor.cc:64-68 | n copies of the default preference |
| Irm.IrmReactor.constructor | src/irm_reactor.cc:7-21 | every count, time, size and coordinate starts at 0 and the power commodity is "power" |
| Irm.IrmReactor.Checks | src/irm_reactor.cc:75-100 | the five checks, in source order |
| Irm.IrmReactor.ReportEmptyIffConsistent | src/irm_reactor.cc:75-103 | the report is empty exactly when the three recipe-change lists match the recipe-change times and the two preference-change lists match the preference-change times |
| Irm.IrmReactor.Validate | src/irm_reactor.cc:72-103 | changes nothing; passes exactly when all five lists have their expected lengths, and otherwise raises a ValueError whose text is the failed checks' lines in order |
| Irm.IrmReactor.EnterNotify | src/irm_reactor.cc:60-105 | empty preferences become one default per fuel out-commodity, hybrid exactly with side products, and a ValueError carrying one line per mismatched list exactly when a length mismatch exists |

## Left out

- Transcendental parts of the Python calculator: `value_function` (logarithm), the diffusion separation factors and `alpha_star` (square roots), the powers in the `e` and `s` factors, `get_swu`'s infinity test and the `scipy.optimize.minimize` search of `_calculate_staging`. The model takes `e`, `s` and the values of the value function as parameters.
- Calculator.MultiIsotope.SetAlpha: computes only the centrifuge branch; the diffusion factors and `alpha_star` need square roots.
- Calculator.MultiIsotope.DifferenceConcentration: states the radicand, the squared relative deviation, and not its square root; both are zero at the same points.
- Calculator.DeviationSquared: a zero target assay (a tails target of 0.0 is accepted by `set_tails_enrichment`) gives numpy infinities or NaN in the source; the model returns `None` there and does not distinguish inf from NaN.
- Calculator.MultiIsotope.CalculateConcentrations: requires the per-isotope `e` and `s` to share a sign. In the source they do for positive stage numbers and `alpha_star != 1`: both are positive where `alpha_star > 1` (molecules lighter than M*) and both negative where `alpha_star < 1` (heavier ones).
- Calculator.MultiIsotope.CalculateStaging: returns the search's starting points and bounds instead of running the optimiser.
- Calculator.MultiIsotope.SetFeedComposition: a composition summing to 0 gives numpy NaNs in the source without raising; the model clears `uptodate`, keeps the written (unnormalised) slots and reports a `RuntimeError` ("invalid value encountered in divide") instead of storing NaNs.
- Calculator.MultiIsotope.SetFeedCompositionArray: an all-zero array gives NaN entries and a cleared `uptodate` in the source without raising; the model clears `uptodate`, stores the unnormalised array and reports a `RuntimeError` instead of storing NaNs.
- `np.inf` is modelled as any value above 1e298, the threshold `check_input` uses.
- PythonEnrichment.BindInitArgs: a value of the wrong JSON kind (a string as `product_assay`, a list as `feed_composition`, `true` as `feed_qty`) is bound by Python as it is and then fails later in a setter with a ValueError or KeyError, or not at all; the model stops at binding with a TypeError and does not follow those later paths. Documents written by `ParamsToOutFile_` never have the wrong kind (`BindRequestDocument`).
- `Multi_isotope.from_json`, `results_to_json`, `calculate_enrichment_from_file` and `pprint`: file and console I/O. `BindInitArgs` models the keyword binding of `cls(**input_data)`.
- PythonEnrichment.Normalize: `cyclus::compmath::Normalize` is not part of this model. It is taken as division by the sum of all entries, and a map summing to 0 is left unchanged.
- `cyclus::AlmostEq` (in `cyc_limits.h`, which is not part of this model) is assumed to compare within a few units in the last place relative to |x + y|, or absolutely below the smallest normal double. Against 0 this leaves only zero and subnormal fractions (|x| < 2.2250738585072014e-308) as almost zero, so every normal non-zero feed fraction is written. Nothing of the comparison's ULP arithmetic is modelled beyond that.
- Python embedding (`cyclus::PyStart`, `PyRun_SimpleString`): a run is a parameter giving the two exit codes and the file the calculator leaves.
- File streams and `std::remove` are modelled by the `Workspace` map from file names to JSON documents. JSON serialisation is not modelled.
- MultiIsotopeHelper.MultiIsotopeAtomFrac: requires the isotope to be present and the uranium total to be non-zero. Otherwise the source reads an uninitialised value or divides by zero. The same holds for the mass and assay overloads.
- `cyclus::Composition` and `cyclus::Material` are records holding their atom and mass maps; the conversion between the two maps is not modelled.
- Cyclus framework glue in the reactors: `Record_`, `RecordPosition_`, `RecordPosition`, `RecordSideProduct_`, the `RecordTimeSeries` calls (demand, supply and power), `GetMatlBids` with its portfolios and constraints, `context()->GetRecipe` and `Material::Transmute`. Transmutation is modelled as the set of transmuted assembly ids.
- Gpr.GprReactor.Tock: the recorded power is returned (`Some(power)` or `Some(0)`) instead of being written to a time series.
- Gpr.GprReactor.GetMatlRequests: requires the preference and in-recipe lists to be at least as long as the in-commodity list, and cycle plus refuel time to be positive when an exit time is set. The source would read out of range or divide by zero. The demand record of the largest preference is not modelled.
- Gpr.GprReactor.GetMatlTrades: requires the spent buffer to hold enough assemblies of each traded commodity, which the cyclus exchange guarantees because the reactor bid them. The index erase assumes assembly ids are unique.
- Gpr.GprReactor.Tick: requires a positive batch size. With a zero batch and a non-empty core, the retired discharge loop of the source never ends. The spent buffer's capacity is a field, because its declaration in `gpr_reactor.h` is not part of this model.
- `GprReactor::InCommod_` and `InRecipe_` are commented out in the source and not modelled. The same holds for `IRMReactor`'s `InitFrom`, `Tick`, `Tock` and trading.
- Irm.IrmReactor.EnterNotify: `RecordPosition` is not modelled. The coordinates object of the constructor is represented by the latitude and longitude fields.
- src/enrichment_calculator.h and the converters: the C++ enrichment calculator's implementation is not part of this model.
- The Gaussian-process kernels and `predict_posterior.py` of spentfuelgpr: floating-point numerics and an external library.
