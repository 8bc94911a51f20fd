/** The Python `Multi_isotope` calculator of the `misoenrichment` package:
    input validation and normalisation of the feed, the target assays and
    their `uptodate` cache flag, the centrifuge stage separation factors, the
    matched-abundance-ratio concentration balance and the flow logic.

    The transcendental parts are not computed here. The per-isotope
    enriching and stripping factors of reference [2] of the source,
      e_i = 1 / alpha*_i / (1 - alpha*_i^(-n_e)),
      s_i = 1 / alpha*_i / (alpha*_i^(n_s + 1) - 1),
    are taken as given reals (for molecules lighter than the key weight M*,
    350.5, both are positive, for heavier ones both are negative; only their
    common sign is used), and so are the values of the logarithmic value function of the
    feed, product and tails streams. */
module Calculator {
  import opened Wrappers

  const AllowedNuclides: seq<string> :=
    ["922320000", "922330000", "922340000", "922350000", "922360000", "922380000"]
  const MStar: real := 350.5
  const MassHexafluoride: int := 6 * 19
  const UraniumMasses: seq<int> := [232, 233, 234, 235, 236, 238]
  /** Masses of the hexafluoride molecules of the six isotopes. */
  const Isotopes: seq<int> := seq(6, i requires 0 <= i < 6 => UraniumMasses[i] + MassHexafluoride)
  /** Index of U-235, the matched isotope, in every composition vector. */
  const U235Index: nat := 3
  /** Index of U-238, the key isotope. */
  const U238Index: nat := 5

  // Keyword parameters of `Multi_isotope.__init__`.
  const FeedCompositionKey: string := "feed_composition"
  const ProductAssayKey: string := "product_assay"
  const TailsAssayKey: string := "tails_assay"
  const ProcessKey: string := "process"
  const Alpha235Key: string := "alpha_235"
  const FeedQtyKey: string := "feed_qty"
  const ProductQtyKey: string := "product_qty"
  const MaxSwuKey: string := "max_swu"
  const InitKeywords: set<string> :=
    {FeedCompositionKey, ProductAssayKey, TailsAssayKey, ProcessKey,
     Alpha235Key, FeedQtyKey, ProductQtyKey, MaxSwuKey}

  /** The two enrichment processes the calculator knows. */
  predicate IsCentrifuge(process: string) {
    process == "centrifuge"
  }

  predicate IsProcess(process: string) {
    process == "centrifuge" || process == "diffusion"
  }

  /** Quantities above this bound count as unbounded (np.inf, or the 1e299
      sentinel of the C++ side). */
  const Unbounded: real := 1e298

  // Messages of the exceptions the calculator raises.
  const AllUnboundedMsg: string := "'feed', 'product' and 'max_swu' are set to very large values!\nAt least one variable of these has to be finite!"
  const SwuNotPositiveMsg: string := "'max_swu' has to be stricly positive!"
  const InvalidNuclideMsg: string := "Invalid nuclide in specified feed composition."
  const NoU235Msg: string := "Feed U235 content unspecified!"
  const InvalidCompositionMsg: string := "Composition is not valid! At least one nuclide with a concentration < 0 or >= 1!"
  const InvalidDivideMsg: string := "invalid value encountered in divide"
  const BadShapeMsg: string := "If feed composition is provided as array, then it must have shape (6,)"
  const BadProductAssayMsg: string := "Target product enrichment has to be in the range (0, 1) and it must be larger than the feed concentration."
  const TailsRangeMsg: string := "Target tails enrichment has to be in the range (0, 1)!"
  const TailsAboveFeedMsg: string := "Target tails enrichment must be smaller than the feed concentration."
  const ProcessSetterMsg: string := "'process' must be one of: ['centrifuge', 'diffusion']"
  const ProcessStagingMsg: string := "'process' must either be 'centrifuge' or 'diffusion'!"

  // ---------------------------------------------------------------------------
  // Sums over composition vectors

  function Sum(v: seq<real>): real {
    if v == [] then 0.0 else Sum(v[..|v| - 1]) + v[|v| - 1]
  }

  predicate NonNegative(v: seq<real>) {
    forall i :: 0 <= i < |v| ==> v[i] >= 0.0
  }

  function Zeros(): (v: seq<real>)
    ensures |v| == 6 && NonNegative(v)
  {
    [0.0, 0.0, 0.0, 0.0, 0.0, 0.0]
  }

  lemma {:induction false} SumNonNegative(v: seq<real>)
    requires NonNegative(v)
    ensures Sum(v) >= 0.0
  {
    if v != [] {
      SumNonNegative(v[..|v| - 1]);
    }
  }

  /** `v` divided element-wise by `c`, as numpy's `v / c`. */
  function Scaled(v: seq<real>, c: real): (w: seq<real>)
    requires c != 0.0
    ensures |w| == |v| && forall i :: 0 <= i < |v| ==> w[i] * c == v[i]
  {
    seq(|v|, i requires 0 <= i < |v| => v[i] / c)
  }

  lemma {:induction false} SumScaled(v: seq<real>, c: real)
    requires c != 0.0
    ensures Sum(Scaled(v, c)) == Sum(v) / c
  {
    if v != [] {
      var init := v[..|v| - 1];
      assert Scaled(v, c)[..|v| - 1] == Scaled(init, c);
      SumScaled(init, c);
      assert Sum(init) / c + v[|v| - 1] / c == (Sum(init) + v[|v| - 1]) / c;
    }
  }

  /** Normalisation: `v / v.sum()`. */
  function Normalise(v: seq<real>): (w: seq<real>)
    requires Sum(v) != 0.0
    ensures |w| == |v| && Sum(w) == 1.0
  {
    SumScaled(v, Sum(v));
    Scaled(v, Sum(v))
  }

  lemma NormalisePreservesSign(v: seq<real>)
    requires NonNegative(v) && Sum(v) != 0.0
    ensures NonNegative(Normalise(v))
  {
    SumNonNegative(v);
    forall i | 0 <= i < |v| ensures Normalise(v)[i] >= 0.0 {
      if v[i] > 0.0 {
        DivPositive(v[i], Sum(v));
      }
    }
  }

  // ---------------------------------------------------------------------------
  // Input checks

  /** `check_input`: at least one of feed, product and SWU must be bounded,
      and the SWU limit must be positive. */
  function CheckInput(feedQty: real, productQty: real, maxSwu: real): (r: Outcome)
    ensures r.Pass? <==> maxSwu > 0.0 && (feedQty <= Unbounded || productQty <= Unbounded || maxSwu <= Unbounded)
    ensures r.Fail? ==> r.error.ValueError?
  {
    if maxSwu > Unbounded && feedQty > Unbounded && productQty > Unbounded then
      Fail(ValueError(AllUnboundedMsg))
    else if maxSwu <= 0.0 then
      Fail(ValueError(SwuNotPositiveMsg))
    else
      Pass
  }

  /** Index of the first nuclide (in table order, from `i` on) that the feed
      gives a value outside [0, 1) for; 6 if there is none. */
  function FirstInvalid(composition: map<string, real>, i: nat): (k: nat)
    requires i <= 6
    ensures i <= k <= 6
    ensures forall j :: i <= j < k ==> AllowedNuclides[j] in composition ==> 0.0 <= composition[AllowedNuclides[j]] < 1.0
    ensures k < 6 ==> AllowedNuclides[k] in composition && !(0.0 <= composition[AllowedNuclides[k]] < 1.0)
    decreases 6 - i
  {
    if i == 6 then 6
    else if AllowedNuclides[i] in composition && !(0.0 <= composition[AllowedNuclides[i]] < 1.0) then i
    else FirstInvalid(composition, i + 1)
  }

  /** `xf` with the slots of the first `n` nuclides overwritten by the values
      the feed gives for them; slots the feed does not mention keep theirs. */
  function Overwrite(xf: seq<real>, composition: map<string, real>, n: nat): (w: seq<real>)
    requires |xf| == 6
    ensures |w| == 6
  {
    seq(6, i requires 0 <= i < 6 =>
      if i < n && AllowedNuclides[i] in composition then composition[AllowedNuclides[i]] else xf[i])
  }

  lemma OverwriteStep(xf: seq<real>, composition: map<string, real>, i: nat)
    requires |xf| == 6 && i < 6
    ensures AllowedNuclides[i] in composition ==>
              Overwrite(xf, composition, i + 1) == Overwrite(xf, composition, i)[i := composition[AllowedNuclides[i]]]
    ensures AllowedNuclides[i] !in composition ==>
              Overwrite(xf, composition, i + 1) == Overwrite(xf, composition, i)
  {
  }

  predicate AllAllowed(composition: map<string, real>) {
    forall k :: k in composition ==> k in AllowedNuclides
  }

  // ---------------------------------------------------------------------------
  // The setters' decisions

  /** What `set_feed_composition` (dict form) raises on a calculator whose
      feed vector is `xf`, checked in the source's order: an unknown
      nuclide, a missing U-235 entry, a value outside [0, 1), and a feed
      that sums to zero and cannot be normalised. */
  function FeedVerdict(composition: map<string, real>, xf: seq<real>): Outcome
    requires |xf| == 6
  {
    if !AllAllowed(composition) then Fail(KeyError(InvalidNuclideMsg))
    else if "922350000" !in composition then Fail(ValueError(NoU235Msg))
    else if FirstInvalid(composition, 0) < 6 then Fail(ValueError(InvalidCompositionMsg))
    else if Sum(Overwrite(xf, composition, 6)) == 0.0 then Fail(RuntimeError(InvalidDivideMsg))
    else Pass
  }

  /** The feed vector a successful `set_feed_composition` leaves behind. */
  function FedComposition(composition: map<string, real>, xf: seq<real>): seq<real>
    requires |xf| == 6 && FeedVerdict(composition, xf).Pass?
  {
    Normalise(Overwrite(xf, composition, 6))
  }

  /** What `set_product_enrichment` raises for a feed vector `xf`. */
  function ProductVerdict(xp: real, xf: seq<real>): Outcome
    requires |xf| == 6
  {
    if xp < 0.0 || xp > 1.0 || xp <= xf[U235Index] then Fail(ValueError(BadProductAssayMsg)) else Pass
  }

  /** What `set_tails_enrichment` raises for a feed vector `xf`. */
  function TailsVerdict(xt: real, xf: seq<real>): Outcome
    requires |xf| == 6
  {
    if xt < 0.0 || xt > 1.0 then Fail(ValueError(TailsRangeMsg))
    else if xt >= xf[U235Index] && exists i :: 0 <= i < 6 && xf[i] != 0.0 then Fail(ValueError(TailsAboveFeedMsg))
    else Pass
  }

  /** What `set_enrichment_process` raises. */
  function ProcessVerdict(process: string): Outcome {
    if IsProcess(process) then Pass else Fail(ValueError(ProcessSetterMsg))
  }

  /** The first exception of the feed, product and tails setters, called in
      that order on a calculator whose feed vector is `xf`. */
  function AssaysVerdict(composition: map<string, real>, xp: real, xt: real, xf: seq<real>): Outcome
    requires |xf| == 6
  {
    var feed := FeedVerdict(composition, xf);
    if feed.Fail? then feed
    else
      var xf' := FedComposition(composition, xf);
      var product := ProductVerdict(xp, xf');
      if product.Fail? then product else TailsVerdict(xt, xf')
  }

  /** The first exception of the setter calls of `__init__`. */
  function ConfigureVerdict(composition: map<string, real>, xp: real, xt: real, process: string,
                            xf: seq<real>): Outcome
    requires |xf| == 6
  {
    var assays := AssaysVerdict(composition, xp, xt, xf);
    if assays.Fail? then assays else ProcessVerdict(process)
  }

  /** The exception `__init__` raises: that of `check_input`, else the first
      setter's, the feed vector starting as zeros. */
  function InitVerdict(composition: map<string, real>, xp: real, xt: real, process: string,
                       feedQty: real, productQty: real, maxSwu: real): Outcome
  {
    var check := CheckInput(feedQty, productQty, maxSwu);
    if check.Fail? then check else ConfigureVerdict(composition, xp, xt, process, Zeros())
  }

  /** `__init__` succeeds exactly when at least one quantity is bounded and
      the SWU limit positive, the feed names only uranium nuclides, includes
      U-235 and gives values in [0, 1) that do not all vanish, the product
      target lies in [0, 1] above the feed's normalised U-235 share, the
      tails target in [0, 1] below it, and the process is known. */
  lemma InitAccepts(composition: map<string, real>, xp: real, xt: real, process: string,
                    feedQty: real, productQty: real, maxSwu: real)
    ensures InitVerdict(composition, xp, xt, process, feedQty, productQty, maxSwu).Pass? <==>
              maxSwu > 0.0 && (feedQty <= Unbounded || productQty <= Unbounded || maxSwu <= Unbounded) &&
              AllAllowed(composition) && "922350000" in composition &&
              (forall k :: k in composition ==> 0.0 <= composition[k] < 1.0) &&
              var raw := Overwrite(Zeros(), composition, 6);
              Sum(raw) > 0.0 &&
              var share := composition["922350000"] / Sum(raw);
              0.0 <= xp <= 1.0 && xp > share && 0.0 <= xt <= 1.0 && xt < share && IsProcess(process)
  {
    var raw := Overwrite(Zeros(), composition, 6);
    if AllAllowed(composition) {
      ValuesInRange(composition);
      if FirstInvalid(composition, 0) == 6 {
        assert NonNegative(raw);
        SumNonNegative(raw);
        if Sum(raw) != 0.0 && "922350000" in composition {
          var xf' := Normalise(raw);
          assert AllowedNuclides[U235Index] == "922350000";
          assert raw[U235Index] == composition["922350000"];
          assert xf'[U235Index] == raw[U235Index] / Sum(raw);
          NotAllZero(xf');
        }
      }
    }
  }

  /** For a feed naming only uranium nuclides, the value check passes
      exactly when every value lies in [0, 1). */
  lemma ValuesInRange(composition: map<string, real>)
    requires AllAllowed(composition)
    ensures FirstInvalid(composition, 0) == 6 <==> forall k :: k in composition ==> 0.0 <= composition[k] < 1.0
  {
    var j := FirstInvalid(composition, 0);
    if j == 6 {
      forall k | k in composition
        ensures 0.0 <= composition[k] < 1.0
      {
        var i :| 0 <= i < 6 && AllowedNuclides[i] == k;
      }
    }
  }

  /** A vector with a non-zero sum has a non-zero entry. */
  lemma {:induction false} NotAllZero(v: seq<real>)
    requires Sum(v) != 0.0
    ensures exists i :: 0 <= i < |v| && v[i] != 0.0
  {
    var init := v[..|v| - 1];
    if v[|v| - 1] == 0.0 {
      NotAllZero(init);
      var i :| 0 <= i < |init| && init[i] != 0.0;
      assert v[i] == init[i];
    }
  }

  /** The centrifuge stage separation factors of `set_alpha`. */
  function CentrifugeAlpha(alpha235: real): (alpha: seq<real>)
    ensures |alpha| == 6
    ensures forall i :: 0 <= i < 6 ==> alpha[i] == 1.0 + (238 - UraniumMasses[i]) as real * (alpha235 - 1.0) / 3.0
    ensures alpha[U238Index] == 1.0 && alpha[U235Index] == alpha235
  {
    // 2 * MStar - Isotopes[3] = 701 - 349 = 352 = Isotopes[5], so the
    // coefficient of isotope i is 352 - (m_i + 114) = 238 - m_i.
    seq(6, i requires 0 <= i < 6 =>
      1.0 + (2.0 * MStar - Isotopes[U235Index] as real - Isotopes[i] as real) * (alpha235 - 1.0) / 3.0)
  }

  /** The square of the relative deviation of the achieved U-235 assays from
      the targets; `difference_concentration` returns its square root. It is
      positive unless both targets are met, and zero when they are. A zero
      target makes the division by it produce an infinity or NaN rather than
      a number; the model returns `None` for that case. */
  function DeviationSquared(xp235: real, xt235: real, userXp: real, userXt: real): (d: Option<real>)
    ensures d.None? <==> userXp == 0.0 || userXt == 0.0
    ensures d.Some? ==> d.value >= 0.0
    ensures d.Some? && (xp235 != userXp || xt235 != userXt) ==> d.value > 0.0
    ensures d.Some? && xp235 == userXp && xt235 == userXt ==> d.value == 0.0
  {
    if userXp == 0.0 || userXt == 0.0 then None else
    var deltaXp := (xp235 - userXp) / userXp;
    var deltaXt := (xt235 - userXt) / userXt;
    SquaresNonNegative(deltaXp, deltaXt);
    if xp235 != userXp then
      assert deltaXp * userXp == xp235 - userXp;
      FirstSquarePositive(deltaXp, deltaXt);
      Some(deltaXp * deltaXp + deltaXt * deltaXt)
    else if xt235 != userXt then
      assert deltaXt * userXt == xt235 - userXt;
      SecondSquarePositive(deltaXp, deltaXt);
      Some(deltaXp * deltaXp + deltaXt * deltaXt)
    else
      Some(deltaXp * deltaXp + deltaXt * deltaXt)
  }

  lemma FirstSquarePositive(a: real, b: real)
    requires a != 0.0
    ensures a * a + b * b > 0.0
  {
  }

  lemma SecondSquarePositive(a: real, b: real)
    requires b != 0.0
    ensures a * a + b * b > 0.0
  {
  }

  lemma SquaresNonNegative(a: real, b: real)
    ensures a * a + b * b >= 0.0
  {
  }

  lemma MulPositive(a: real, b: real)
    requires a > 0.0 && b > 0.0
    ensures a * b > 0.0
  {
  }

  lemma DivPositive(a: real, c: real)
    requires a > 0.0 && c > 0.0
    ensures a / c > 0.0
  {
  }

  lemma DivAtMost(a: real, c: real, b: real)
    requires c > 0.0 && a <= b * c
    ensures a / c <= b
  {
  }

  lemma DivBelow(a: real, c: real, b: real)
    requires c > 0.0 && a < b * c
    ensures a / c < b
  {
  }

  lemma PositiveFactor(a: real, b: real)
    requires a > 0.0 && a * b > 0.0
    ensures b > 0.0
  {
  }

  // ---------------------------------------------------------------------------
  // Concentration balance

  predicate SameSign(e: seq<real>, s: seq<real>) {
    |e| == |s| && forall i :: 0 <= i < |e| ==> e[i] * s[i] > 0.0
  }

  lemma ProductSigns(x: real, y: real)
    requires x * y > 0.0
    ensures (x > 0.0 && y > 0.0) || (x < 0.0 && y < 0.0)
  {
  }

  /** The enriching and stripping shares of one isotope, e/(e+s) and
      s/(e+s), are both positive. */
  lemma SameSignSum(x: real, y: real)
    requires x * y > 0.0
    ensures x + y != 0.0
    ensures x / (x + y) > 0.0 && y / (x + y) > 0.0
  {
    ProductSigns(x, y);
    if x > 0.0 {
      DivPositive(x, x + y);
      DivPositive(y, x + y);
    } else {
      DivPositive(-x, -(x + y));
      DivPositive(-y, -(x + y));
    }
  }

  /** One term of `e_sum`: `e * xf / (e + s)` for one isotope. */
  function EnrichingTerm(e: real, s: real, x: real): real
    requires e * s > 0.0
  {
    SameSignSum(e, s);
    e * x / (e + s)
  }

  /** One term of `s_sum`: `s * xf / (e + s)` for one isotope. */
  function StrippingTerm(e: real, s: real, x: real): real
    requires e * s > 0.0
  {
    SameSignSum(e, s);
    s * x / (e + s)
  }

  lemma TermSigns(e: real, s: real, x: real)
    requires e * s > 0.0 && x >= 0.0
    ensures x > 0.0 ==> EnrichingTerm(e, s, x) > 0.0 && StrippingTerm(e, s, x) > 0.0
    ensures x == 0.0 ==> EnrichingTerm(e, s, x) == 0.0 && StrippingTerm(e, s, x) == 0.0
  {
    SameSignSum(e, s);
    var c := e + s;
    assert EnrichingTerm(e, s, x) == (e / c) * x;
    assert StrippingTerm(e, s, x) == (s / c) * x;
    if x > 0.0 {
      MulPositive(e / c, x);
      MulPositive(s / c, x);
    }
  }

  lemma TermsAddUp(e: real, s: real, x: real)
    requires e * s > 0.0
    ensures EnrichingTerm(e, s, x) + StrippingTerm(e, s, x) == x
  {
    SameSignSum(e, s);
    var c := e + s;
    assert e * x / c + s * x / c == (e + s) * x / c;
  }

  function EnrichingTerms(e: seq<real>, s: seq<real>, xf: seq<real>): (w: seq<real>)
    requires SameSign(e, s) && |xf| == |e|
    ensures |w| == |xf| && forall i :: 0 <= i < |xf| ==> w[i] == EnrichingTerm(e[i], s[i], xf[i])
  {
    seq(|xf|, i requires 0 <= i < |xf| => EnrichingTerm(e[i], s[i], xf[i]))
  }

  function StrippingTerms(e: seq<real>, s: seq<real>, xf: seq<real>): (w: seq<real>)
    requires SameSign(e, s) && |xf| == |e|
    ensures |w| == |xf| && forall i :: 0 <= i < |xf| ==> w[i] == StrippingTerm(e[i], s[i], xf[i])
  {
    seq(|xf|, i requires 0 <= i < |xf| => StrippingTerm(e[i], s[i], xf[i]))
  }

  /** `e_sum` of `calculate_concentrations`; positive for a feed with some
      uranium, so the divisions by it are defined. */
  function ESum(e: seq<real>, s: seq<real>, xf: seq<real>): (r: real)
    requires SameSign(e, s) && |xf| == |e|
    ensures NonNegative(xf) && Sum(xf) > 0.0 ==> r > 0.0
  {
    if NonNegative(xf) && Sum(xf) > 0.0 then
      SectionTermsPositive(e, s, xf);
      Sum(EnrichingTerms(e, s, xf))
    else
      Sum(EnrichingTerms(e, s, xf))
  }

  /** `s_sum` of `calculate_concentrations`; positive likewise. */
  function SSum(e: seq<real>, s: seq<real>, xf: seq<real>): (r: real)
    requires SameSign(e, s) && |xf| == |e|
    ensures NonNegative(xf) && Sum(xf) > 0.0 ==> r > 0.0
  {
    if NonNegative(xf) && Sum(xf) > 0.0 then
      SectionTermsPositive(e, s, xf);
      Sum(StrippingTerms(e, s, xf))
    else
      Sum(StrippingTerms(e, s, xf))
  }

  lemma {:induction false} SumPositiveTerms(w: seq<real>, v: seq<real>)
    requires |w| == |v| && NonNegative(v) && Sum(v) > 0.0
    requires forall i :: 0 <= i < |v| ==> (v[i] > 0.0 ==> w[i] > 0.0) && (v[i] == 0.0 ==> w[i] == 0.0)
    ensures Sum(w) > 0.0
  {
    var n := |v| - 1;
    var vi, wi := v[..n], w[..n];
    SumNonNegative(vi);
    if Sum(vi) > 0.0 {
      SumPositiveTerms(wi, vi);
    } else {
      SumZeroTerms(wi, vi);
    }
  }

  lemma {:induction false} SumZeroTerms(w: seq<real>, v: seq<real>)
    requires |w| == |v| && NonNegative(v) && Sum(v) == 0.0
    requires forall i :: 0 <= i < |v| ==> (v[i] == 0.0 ==> w[i] == 0.0)
    ensures Sum(w) == 0.0
  {
    if v != [] {
      var n := |v| - 1;
      SumNonNegative(v[..n]);
      SumZeroTerms(w[..n], v[..n]);
    }
  }

  lemma SectionTermsPositive(e: seq<real>, s: seq<real>, xf: seq<real>)
    requires SameSign(e, s) && |xf| == |e| && NonNegative(xf) && Sum(xf) > 0.0
    ensures Sum(EnrichingTerms(e, s, xf)) > 0.0 && Sum(StrippingTerms(e, s, xf)) > 0.0
  {
    var we, ws := EnrichingTerms(e, s, xf), StrippingTerms(e, s, xf);
    forall i | 0 <= i < |xf|
      ensures (xf[i] > 0.0 ==> we[i] > 0.0 && ws[i] > 0.0) && (xf[i] == 0.0 ==> we[i] == 0.0 && ws[i] == 0.0)
    {
      TermSigns(e[i], s[i], xf[i]);
    }
    SumPositiveTerms(we, xf);
    SumPositiveTerms(ws, xf);
  }

  lemma {:induction false} SumPointwise(a: seq<real>, b: seq<real>, c: seq<real>)
    requires |a| == |b| == |c| && forall i :: 0 <= i < |a| ==> a[i] + b[i] == c[i]
    ensures Sum(a) + Sum(b) == Sum(c)
  {
    if a != [] {
      var n := |a| - 1;
      SumPointwise(a[..n], b[..n], c[..n]);
    }
  }

  /** Every feed atom leaves through one of the two sections. */
  lemma SectionSumsAddUp(e: seq<real>, s: seq<real>, xf: seq<real>)
    requires SameSign(e, s) && |xf| == |e|
    ensures ESum(e, s, xf) + SSum(e, s, xf) == Sum(xf)
  {
    var we, ws := EnrichingTerms(e, s, xf), StrippingTerms(e, s, xf);
    forall i | 0 <= i < |xf| ensures we[i] + ws[i] == xf[i] {
      TermsAddUp(e[i], s[i], xf[i]);
    }
    SumPointwise(we, ws, xf);
  }

  /** `e * xf / ((e + s) * e_sum)` for one isotope. */
  function ProductFraction(e: real, s: real, x: real, eSum: real): real
    requires e * s > 0.0 && eSum != 0.0
  {
    SameSignSum(e, s);
    e * x / ((e + s) * eSum)
  }

  /** `s * xf / ((e + s) * s_sum)` for one isotope. */
  function TailsFraction(e: real, s: real, x: real, sSum: real): real
    requires e * s > 0.0 && sSum != 0.0
  {
    SameSignSum(e, s);
    s * x / ((e + s) * sSum)
  }

  lemma FractionsAreShares(e: real, s: real, x: real, eSum: real, sSum: real)
    requires e * s > 0.0 && eSum != 0.0 && sSum != 0.0
    ensures ProductFraction(e, s, x, eSum) == EnrichingTerm(e, s, x) / eSum
    ensures TailsFraction(e, s, x, sSum) == StrippingTerm(e, s, x) / sSum
  {
    SameSignSum(e, s);
    QuotientOfQuotient(e * x, e + s, eSum);
    QuotientOfQuotient(s * x, e + s, sSum);
  }

  /** `self.xp` after `calculate_concentrations`. */
  function ProductComposition(e: seq<real>, s: seq<real>, xf: seq<real>): (xp: seq<real>)
    requires SameSign(e, s) && |xf| == |e| && ESum(e, s, xf) != 0.0
    ensures |xp| == |xf|
  {
    seq(|xf|, i requires 0 <= i < |xf| => ProductFraction(e[i], s[i], xf[i], ESum(e, s, xf)))
  }

  /** `self.xt` after `calculate_concentrations`. */
  function TailsComposition(e: seq<real>, s: seq<real>, xf: seq<real>): (xt: seq<real>)
    requires SameSign(e, s) && |xf| == |e| && SSum(e, s, xf) != 0.0
    ensures |xt| == |xf|
  {
    seq(|xf|, i requires 0 <= i < |xf| => TailsFraction(e[i], s[i], xf[i], SSum(e, s, xf)))
  }

  /** Product and tails compositions are normalised. */
  lemma CompositionsNormalised(e: seq<real>, s: seq<real>, xf: seq<real>)
    requires SameSign(e, s) && |xf| == |e| && ESum(e, s, xf) != 0.0 && SSum(e, s, xf) != 0.0
    ensures Sum(ProductComposition(e, s, xf)) == 1.0
    ensures Sum(TailsComposition(e, s, xf)) == 1.0
  {
    ProductNormalised(e, s, xf);
    TailsNormalised(e, s, xf);
  }

  lemma ProductNormalised(e: seq<real>, s: seq<real>, xf: seq<real>)
    requires SameSign(e, s) && |xf| == |e| && ESum(e, s, xf) != 0.0
    ensures Sum(ProductComposition(e, s, xf)) == 1.0
  {
    var eSum := ESum(e, s, xf);
    var we := EnrichingTerms(e, s, xf);
    assert eSum == Sum(we);
    forall i | 0 <= i < |xf|
      ensures ProductComposition(e, s, xf)[i] == Scaled(we, eSum)[i]
    {
      FractionsAreShares(e[i], s[i], xf[i], eSum, 1.0);
    }
    assert ProductComposition(e, s, xf) == Scaled(we, eSum);
    SumScaled(we, eSum);
  }

  lemma TailsNormalised(e: seq<real>, s: seq<real>, xf: seq<real>)
    requires SameSign(e, s) && |xf| == |e| && SSum(e, s, xf) != 0.0
    ensures Sum(TailsComposition(e, s, xf)) == 1.0
  {
    var sSum := SSum(e, s, xf);
    var ws := StrippingTerms(e, s, xf);
    assert sSum == Sum(ws);
    forall i | 0 <= i < |xf|
      ensures TailsComposition(e, s, xf)[i] == Scaled(ws, sSum)[i]
    {
      FractionsAreShares(e[i], s[i], xf[i], 1.0, sSum);
    }
    assert TailsComposition(e, s, xf) == Scaled(ws, sSum);
    SumScaled(ws, sSum);
  }

  lemma QuotientOfQuotient(a: real, b: real, c: real)
    requires b != 0.0 && c != 0.0
    ensures a / (b * c) == a / b / c
  {
  }

  /** Each isotope balances: the feed fraction equals the product fraction
      weighted by e_sum plus the tails fraction weighted by s_sum. */
  lemma IsotopeBalance(e: seq<real>, s: seq<real>, xf: seq<real>, i: nat)
    requires SameSign(e, s) && |xf| == |e| && ESum(e, s, xf) != 0.0 && SSum(e, s, xf) != 0.0
    requires i < |xf|
    ensures xf[i] == ESum(e, s, xf) * ProductComposition(e, s, xf)[i] + SSum(e, s, xf) * TailsComposition(e, s, xf)[i]
  {
    var eSum, sSum := ESum(e, s, xf), SSum(e, s, xf);
    var a, b := EnrichingTerm(e[i], s[i], xf[i]), StrippingTerm(e[i], s[i], xf[i]);
    assert ProductComposition(e, s, xf)[i] == ProductFraction(e[i], s[i], xf[i], eSum);
    assert TailsComposition(e, s, xf)[i] == TailsFraction(e[i], s[i], xf[i], sSum);
    FractionsAreShares(e[i], s[i], xf[i], eSum, sSum);
    Cancel(a, eSum);
    Cancel(b, sSum);
    TermsAddUp(e[i], s[i], xf[i]);
  }

  lemma Cancel(a: real, c: real)
    requires c != 0.0
    ensures c * (a / c) == a
  {
  }

  // ---------------------------------------------------------------------------
  // Flows

  datatype Flows = Flows(f: real, p: real, t: real, swu: real)

  /** Separative work of flows `f`, `p`, `t` given the values of the feed,
      product and tails streams (`get_swu`): no flow, no work; when the feed
      splits into product and tails, the value the product and the tails gain
      over their share of the feed (`SwuBalanced`); linear in the flows
      (`SwuScales`). */
  function Swu(vf: real, vp: real, vt: real, f: real, p: real, t: real): (r: real)
    ensures f == 0.0 && p == 0.0 && t == 0.0 ==> r == 0.0
  {
    vp * p + vt * t - vf * f
  }

  lemma SwuBalanced(vf: real, vp: real, vt: real, f: real, p: real, t: real)
    requires f == p + t
    ensures Swu(vf, vp, vt, f, p, t) == (vp - vf) * p + (vt - vf) * t
  {
  }

  /** Scaling all three flows by `k` scales the separative work by `k`, which
      is why capping the feed caps the SWU in `calculate_flows`. */
  lemma SwuScales(vf: real, vp: real, vt: real, f: real, p: real, t: real, k: real)
    ensures Swu(vf, vp, vt, k * f, k * p, k * t) == k * Swu(vf, vp, vt, f, p, t)
  {
  }

  /** The feed, product and tails flows of `calculate_flows` before the SWU
      cap: the smaller of the two user limits binds. */
  function BindingFlows(userF: real, userP: real, eSum: real, sSum: real): (r: (real, real, real))
    requires eSum > 0.0
    ensures r.1 == r.0 * eSum && r.2 == r.0 * sSum
    ensures (r.0 == userF && r.1 < userP) || (r.1 == userP && r.0 == userP / eSum)
    ensures r.0 <= userF && r.1 <= userP
  {
    var p := userF * eSum;
    var f := userP / eSum;
    if p < userP then
      (userF, p, userF * sSum)
    else
      assert f * eSum == userP;
      DivAtMost(userP, eSum, userF);
      (f, userP, f * sSum)
  }

  /** `calculate_flows`: the binding flows, then the SWU cap. When the SWU
      exceeds `userSwu`, the feed is scaled down so that the SWU equals the
      limit exactly, and product and tails follow the feed. */
  function CalculatedFlows(userF: real, userP: real, userSwu: real, eSum: real, sSum: real,
                           vf: real, vp: real, vt: real): (r: Flows)
    requires eSum > 0.0 && userSwu > 0.0
    ensures r.p == r.f * eSum && r.t == r.f * sSum
    ensures r.swu == Swu(vf, vp, vt, r.f, r.p, r.t) && r.swu <= userSwu
    ensures var (f0, p0, t0) := BindingFlows(userF, userP, eSum, sSum);
            (Swu(vf, vp, vt, f0, p0, t0) <= userSwu ==> r == Flows(f0, p0, t0, Swu(vf, vp, vt, f0, p0, t0))) &&
            (Swu(vf, vp, vt, f0, p0, t0) > userSwu ==> r.swu == userSwu && (f0 > 0.0 ==> 0.0 < r.f < f0))
  {
    var (f0, p0, t0) := BindingFlows(userF, userP, eSum, sSum);
    var swu0 := Swu(vf, vp, vt, f0, p0, t0);
    if swu0 > userSwu then
      var d := vp * eSum + vt * sSum - vf;
      assert swu0 == f0 * d;
      var f := userSwu / d;
      CappedFeed(f0, d, userSwu);
      assert Swu(vf, vp, vt, f, f * eSum, f * sSum) == f * d;
      Flows(f, f * eSum, f * sSum, userSwu)
    else
      Flows(f0, p0, t0, swu0)
  }

  lemma CappedFeed(f0: real, d: real, cap: real)
    requires cap > 0.0 && f0 * d > cap
    ensures d != 0.0 && (cap / d) * d == cap
    ensures f0 > 0.0 ==> 0.0 < cap / d < f0
  {
    if f0 > 0.0 {
      PositiveFactor(f0, d);
      DivPositive(cap, d);
      DivBelow(cap, d, f0);
    }
  }

  /** Feed equals product plus tails whenever the section sums add up to 1,
      as they do for a normalised feed (`SectionSumsAddUp`). */
  lemma FlowsConserveMass(userF: real, userP: real, userSwu: real, eSum: real, sSum: real,
                          vf: real, vp: real, vt: real)
    requires eSum > 0.0 && userSwu > 0.0 && eSum + sSum == 1.0
    ensures var r := CalculatedFlows(userF, userP, userSwu, eSum, sSum, vf, vp, vt);
            r.f == r.p + r.t
  {
    var r := CalculatedFlows(userF, userP, userSwu, eSum, sSum, vf, vp, vt);
    Distribute(r.f, eSum, sSum);
  }

  lemma Distribute(f: real, a: real, b: real)
    ensures f * a + f * b == f * (a + b)
  {
  }

  // ---------------------------------------------------------------------------
  // Staging

  /** What `_calculate_staging` does next: return the cached stage numbers,
      or start the minimiser search from the process's initial guesses. */
  datatype Staging =
    | Cached(nE: real, nS: real)
    | Search(initEnriching: seq<real>, initStripping: seq<real>, upperBound: real)

  // ---------------------------------------------------------------------------
  // The calculator object

  class MultiIsotope {
    var uptodate: bool
    var mstar: real
    var xf: seq<real>
    var xp: seq<real>
    var xt: seq<real>
    var userXp: real
    var userXt: real
    var process: string
    var alpha: seq<real>
    var f: real
    var p: real
    var t: real
    var swu: real
    var userF: real
    var userP: real
    var userSwu: real
    var nE: real
    var nS: real

    /** Shapes of the composition vectors, a non-negative feed, a positive
        SWU limit and M* at its constant, which the constructor establishes. */
    ghost predicate Valid()
      reads this
    {
      |xf| == 6 && |xp| == 6 && |xt| == 6 && |alpha| == 6 && NonNegative(xf) && userSwu > 0.0 && mstar == MStar
    }

    /** What the setters of `__init__` leave behind when they all pass on a
        feed vector that started as zeros: the normalised feed, a stale
        cache, the targets and the process as given, and for a centrifuge
        the separation factors derived from `alpha235`. */
    ghost predicate Configured(feedComposition: map<string, real>, productAssay: real, tailsAssay: real,
                               process': string, alpha235: real)
      reads this`xf, this`uptodate, this`userXp, this`userXt, this`process, this`alpha
    {
      FeedVerdict(feedComposition, Zeros()).Pass? && xf == FedComposition(feedComposition, Zeros()) &&
      Sum(xf) == 1.0 && !uptodate && userXp == productAssay && userXt == tailsAssay && process == process' &&
      (IsCentrifuge(process') ==> alpha == CentrifugeAlpha(alpha235))
    }

    /** `__init__`: checks, zeroed vectors, then every setter in turn; the
        first failing step's exception is the result. */
    method Init(feedComposition: map<string, real>, productAssay: real, tailsAssay: real, process': string,
                alpha235: real, feedQty: real, productQty: real, maxSwu: real) returns (r: Outcome)
      modifies this
      ensures r == InitVerdict(feedComposition, productAssay, tailsAssay, process', feedQty, productQty, maxSwu)
      ensures r.Pass? ==> Valid() && Configured(feedComposition, productAssay, tailsAssay, process', alpha235)
      ensures r.Pass? ==> userF == feedQty && userP == productQty && userSwu == maxSwu
      ensures r.Pass? ==> nE == 100.0 && nS == 100.0 && f == 0.0 && p == 0.0 && t == 0.0 && swu == 0.0
    {
      r := CheckInput(feedQty, productQty, maxSwu);
      if r.Fail? {
        return;
      }
      r := Build(feedComposition, productAssay, tailsAssay, process', alpha235, maxSwu);
      if r.Fail? {
        return;
      }
      ClearFlows(feedQty, productQty, maxSwu);
    }

    /** `__init__` after `check_input` passed: zeroed vectors, then the
        setters in turn. */
    method Build(feedComposition: map<string, real>, productAssay: real, tailsAssay: real, process': string,
                 alpha235: real, maxSwu: real) returns (r: Outcome)
      requires maxSwu > 0.0
      modifies this`uptodate, this`mstar, this`xf, this`xp, this`xt, this`alpha, this`userSwu,
               this`userXp, this`userXt, this`process
      ensures Valid() && userSwu == maxSwu
      ensures r == ConfigureVerdict(feedComposition, productAssay, tailsAssay, process', Zeros())
      ensures r.Pass? ==> Configured(feedComposition, productAssay, tailsAssay, process', alpha235)
    {
      ClearVectors(maxSwu);
      r := Configure(feedComposition, productAssay, tailsAssay, process', alpha235);
    }

    /** The first lines of `__init__`: the cache flag, M* and zeroed
        composition vectors. The SWU bound is stored here already because
        `Valid` asks for it; `ClearFlows` stores the same value again. */
    method ClearVectors(maxSwu: real)
      requires maxSwu > 0.0
      modifies this`uptodate, this`mstar, this`xf, this`xp, this`xt, this`alpha, this`userSwu
      ensures Valid() && !uptodate && mstar == MStar
      ensures xf == Zeros() && xp == Zeros() && xt == Zeros() && alpha == Zeros() && userSwu == maxSwu
    {
      uptodate := false;
      mstar := MStar;
      xf, xp, xt := Zeros(), Zeros(), Zeros();
      alpha := Zeros();
      userSwu := maxSwu;
    }

    /** The last lines of `__init__`: zero flows, the user's bounds and the
        initial stage counts. */
    method ClearFlows(feedQty: real, productQty: real, maxSwu: real)
      requires Valid() && maxSwu > 0.0
      modifies this`f, this`p, this`t, this`swu, this`userF, this`userP, this`userSwu, this`nE, this`nS
      ensures f == 0.0 && p == 0.0 && t == 0.0 && swu == 0.0
      ensures userF == feedQty && userP == productQty && userSwu == maxSwu
      ensures nE == 100.0 && nS == 100.0
      ensures Valid()
    {
      f, p, t, swu := 0.0, 0.0, 0.0, 0.0;
      userF, userP, userSwu := feedQty, productQty, maxSwu;
      nE, nS := 100.0, 100.0;
    }

    /** The setter calls of `__init__`, in its order. */
    method Configure(feedComposition: map<string, real>, productAssay: real, tailsAssay: real,
                     process': string, alpha235: real) returns (r: Outcome)
      requires Valid()
      modifies this`xf, this`uptodate, this`userXp, this`userXt, this`process, this`alpha
      ensures Valid()
      ensures r == ConfigureVerdict(feedComposition, productAssay, tailsAssay, process', old(xf))
      ensures r.Pass? ==> FeedVerdict(feedComposition, old(xf)).Pass? && xf == FedComposition(feedComposition, old(xf))
      ensures r.Pass? ==> Sum(xf) == 1.0 && !uptodate
      ensures r.Pass? ==> userXp == productAssay && userXt == tailsAssay && process == process'
      ensures r.Pass? && IsCentrifuge(process') ==> alpha == CentrifugeAlpha(alpha235)
    {
      r := SetAssays(feedComposition, productAssay, tailsAssay);
      if r.Fail? {
        return;
      }
      process := "";
      r := SetProcess(process', alpha235);
    }

    /** The feed, product and tails setters in the order `__init__` calls them. */
    method SetAssays(feedComposition: map<string, real>, productAssay: real, tailsAssay: real) returns (r: Outcome)
      requires Valid()
      modifies this`xf, this`uptodate, this`userXp, this`userXt
      ensures Valid()
      ensures r == AssaysVerdict(feedComposition, productAssay, tailsAssay, old(xf))
      ensures r.Pass? ==> FeedVerdict(feedComposition, old(xf)).Pass? && xf == FedComposition(feedComposition, old(xf))
      ensures r.Pass? ==> Sum(xf) == 1.0 && !uptodate && userXp == productAssay && userXt == tailsAssay
    {
      r := SetFeedComposition(feedComposition);
      if r.Fail? {
        return;
      }
      r := SetProductEnrichment(productAssay);
      if r.Fail? {
        return;
      }
      r := SetTailsEnrichment(tailsAssay);
    }

    /** The process and separation-factor setters in the order `__init__` calls them. */
    method SetProcess(process': string, alpha235: real) returns (r: Outcome)
      requires Valid()
      modifies this`process, this`uptodate, this`alpha
      ensures Valid()
      ensures r == ProcessVerdict(process')
      ensures r.Pass? ==> process == process' && !uptodate
      ensures r.Pass? && IsCentrifuge(process') ==> alpha == CentrifugeAlpha(alpha235)
      ensures xf == old(xf) && userXp == old(userXp) && userXt == old(userXt)
    {
      r := SetEnrichmentProcess(process');
      if r.Fail? {
        return;
      }
      SetAlpha(alpha235);
    }

    /** `set_feed_composition` for a dict: unknown nuclides are a KeyError, a
        missing U-235 entry or a value outside [0, 1) a ValueError. The slots
        are written in table order while checking, so a ValueError for a bad
        value leaves the slots before it already overwritten. On success the
        feed is normalised. */
    method SetFeedComposition(composition: map<string, real>) returns (r: Outcome)
      requires Valid()
      modifies this`xf, this`uptodate
      ensures Valid()
      ensures r == FeedVerdict(composition, old(xf))
      ensures r.Pass? ==> xf == FedComposition(composition, old(xf))
      ensures !AllAllowed(composition) ==> r.Fail? && r.error.KeyError? && unchanged(this)
      ensures AllAllowed(composition) && "922350000" !in composition ==>
                r.Fail? && r.error.ValueError? && unchanged(this)
      ensures AllAllowed(composition) && "922350000" in composition && FirstInvalid(composition, 0) < 6 ==>
                r.Fail? && r.error.ValueError? && uptodate == old(uptodate) &&
                xf == Overwrite(old(xf), composition, FirstInvalid(composition, 0))
      ensures AllAllowed(composition) && "922350000" in composition && FirstInvalid(composition, 0) == 6 ==>
                !uptodate &&
                if Sum(Overwrite(old(xf), composition, 6)) == 0.0 then
                  r.Fail? && r.error.RuntimeError? && xf == Overwrite(old(xf), composition, 6)
                else
                  r.Pass? && xf == Normalise(Overwrite(old(xf), composition, 6))
      ensures r.Pass? ==> Sum(xf) == 1.0
    {
      if !AllAllowed(composition) {
        return Fail(KeyError(InvalidNuclideMsg));
      }
      if "922350000" !in composition {
        return Fail(ValueError(NoU235Msg));
      }
      var k := WriteFeedSlots(composition);
      if k < 6 {
        return Fail(ValueError(InvalidCompositionMsg));
      }
      uptodate := false;
      var total := Sum(xf);
      if total == 0.0 {
        // numpy divides 0 by 0 here and leaves NaN entries behind.
        return Fail(RuntimeError(InvalidDivideMsg));
      }
      NormalisePreservesSign(xf);
      xf := Normalise(xf);
      r := Pass;
    }

    /** The slot-writing loop of `set_feed_composition`: walks the nuclide
        table in order, writing each value the feed gives, and stops at the
        first value outside [0, 1), whose index it returns (6 if none). */
    method WriteFeedSlots(composition: map<string, real>) returns (k: nat)
      requires Valid()
      modifies this`xf
      ensures Valid()
      ensures k == FirstInvalid(composition, 0)
      ensures xf == Overwrite(old(xf), composition, k)
    {
      var i := 0;
      while i < 6
        invariant 0 <= i <= 6 && i <= FirstInvalid(composition, 0)
        invariant FirstInvalid(composition, 0) == FirstInvalid(composition, i)
        invariant xf == Overwrite(old(xf), composition, i)
        invariant Valid()
      {
        var nuclide := AllowedNuclides[i];
        OverwriteStep(old(xf), composition, i);
        if nuclide in composition {
          var val := composition[nuclide];
          if val < 0.0 || val >= 1.0 {
            return i;
          }
          xf := xf[i := val];
        }
        i := i + 1;
      }
      k := 6;
    }

    /** `set_feed_composition` for an array of the six fractions. */
    method SetFeedCompositionArray(composition: seq<real>) returns (r: Outcome)
      requires Valid()
      modifies this`xf, this`uptodate
      ensures Valid()
      ensures |composition| != 6 || !(forall i :: 0 <= i < |composition| ==> 0.0 <= composition[i] < 1.0) ==>
                r.Fail? && r.error.ValueError? && unchanged(this)
      ensures |composition| == 6 && (forall i :: 0 <= i < 6 ==> 0.0 <= composition[i] < 1.0) ==>
                !uptodate &&
                if Sum(composition) == 0.0 then r.Fail? && r.error.RuntimeError? && xf == composition
                else r.Pass? && xf == Normalise(composition)
    {
      if |composition| != 6 {
        return Fail(ValueError(BadShapeMsg));
      }
      if exists i :: 0 <= i < 6 && !(0.0 <= composition[i] < 1.0) {
        return Fail(ValueError(InvalidCompositionMsg));
      }
      uptodate := false;
      if Sum(composition) == 0.0 {
        // As in the dict case, the values are stored but cannot be normalised.
        xf := composition;
        return Fail(RuntimeError(InvalidDivideMsg));
      }
      NormalisePreservesSign(composition);
      xf := Normalise(composition);
      r := Pass;
    }

    /** `set_product_enrichment`: the target must lie in [0, 1] and above the
        feed's U-235 fraction. */
    method SetProductEnrichment(xp': real) returns (r: Outcome)
      requires Valid()
      modifies this`userXp, this`uptodate
      ensures Valid()
      ensures r == ProductVerdict(xp', xf)
      ensures r.Pass? <==> 0.0 <= xp' <= 1.0 && xp' > xf[U235Index]
      ensures r.Pass? ==> userXp == xp' && !uptodate
      ensures r.Fail? ==> r.error.ValueError? && unchanged(this)
    {
      if xp' < 0.0 || xp' > 1.0 || xp' <= xf[U235Index] {
        return Fail(ValueError(BadProductAssayMsg));
      }
      userXp := xp';
      uptodate := false;
      r := Pass;
    }

    /** `set_tails_enrichment`: the target must lie in [0, 1] and, unless the
        feed is all zeros, below the feed's U-235 fraction. */
    method SetTailsEnrichment(xt': real) returns (r: Outcome)
      requires Valid()
      modifies this`userXt, this`uptodate
      ensures Valid()
      ensures r == TailsVerdict(xt', xf)
      ensures r.Pass? <==> 0.0 <= xt' <= 1.0 && !(xt' >= xf[U235Index] && exists i :: 0 <= i < 6 && xf[i] != 0.0)
      ensures r.Pass? ==> userXt == xt' && !uptodate
      ensures r.Fail? ==> r.error.ValueError? && unchanged(this)
    {
      if xt' < 0.0 || xt' > 1.0 {
        return Fail(ValueError(TailsRangeMsg));
      }
      if xt' >= xf[U235Index] && exists i :: 0 <= i < 6 && xf[i] != 0.0 {
        return Fail(ValueError(TailsAboveFeedMsg));
      }
      uptodate := false;
      userXt := xt';
      r := Pass;
    }

    /** `set_enrichment_process`: "centrifuge" or "diffusion". */
    method SetEnrichmentProcess(process': string) returns (r: Outcome)
      requires Valid()
      modifies this`process, this`uptodate
      ensures Valid()
      ensures r == ProcessVerdict(process')
      ensures r.Pass? <==> IsProcess(process')
      ensures r.Pass? ==> process == process' && !uptodate
      ensures r.Fail? ==> r.error.ValueError? && unchanged(this)
    {
      if !IsProcess(process') {
        return Fail(ValueError(ProcessSetterMsg));
      }
      uptodate := false;
      process := process';
      r := Pass;
    }

    /** `set_alpha`: for the centrifuge the linear factors; the diffusion
        factors and `alpha_star` need square roots and are not modelled. Unlike
        the other setters it leaves `uptodate` as it is. */
    method SetAlpha(alpha235: real)
      requires Valid()
      modifies this`alpha
      ensures Valid()
      ensures process == "centrifuge" ==> alpha == CentrifugeAlpha(alpha235)
      ensures process != "centrifuge" ==> alpha == old(alpha)
    {
      if process == "centrifuge" {
        alpha := CentrifugeAlpha(alpha235);
      }
    }

    /** `difference_concentration` before its square root; `None` when a
        target assay is zero and the source's result is not finite. */
    function DifferenceConcentration(): (d: Option<real>)
      requires Valid()
      reads this
      ensures d.None? <==> userXp == 0.0 || userXt == 0.0
      ensures d.Some? ==> d.value >= 0.0
      ensures d.Some? ==> (d.value == 0.0 <==> xp[U235Index] == userXp && xt[U235Index] == userXt)
    {
      DeviationSquared(xp[U235Index], xt[U235Index], userXp, userXt)
    }

    /** `calculate_concentrations` for given enriching and stripping factors;
        returns the squared deviation from the targets, or `None` when a target
        is zero. */
    method CalculateConcentrations(e: seq<real>, s: seq<real>) returns (d: Option<real>)
      requires Valid() && SameSign(e, s) && |e| == 6 && Sum(xf) > 0.0
      modifies this`xp, this`xt
      ensures Valid()
      ensures xp == ProductComposition(e, s, xf) && xt == TailsComposition(e, s, xf)
      ensures Sum(xp) == 1.0 && Sum(xt) == 1.0
      ensures d == DifferenceConcentration()
    {
      CompositionsNormalised(e, s, xf);
      xp := ProductComposition(e, s, xf);
      xt := TailsComposition(e, s, xf);
      d := DifferenceConcentration();
    }

    /** `calculate_flows` for given enriching and stripping factors and
        values of the feed, product and tails streams. */
    method CalculateFlows(e: seq<real>, s: seq<real>, vf: real, vp: real, vt: real)
      requires Valid() && SameSign(e, s) && |e| == 6 && Sum(xf) > 0.0
      modifies this`f, this`p, this`t, this`swu
      ensures Valid()
      ensures Flows(f, p, t, swu) == CalculatedFlows(userF, userP, userSwu, ESum(e, s, xf), SSum(e, s, xf), vf, vp, vt)
      ensures swu <= userSwu
    {
      var flows := CalculatedFlows(userF, userP, userSwu, ESum(e, s, xf), SSum(e, s, xf), vf, vp, vt);
      f, p, t, swu := flows.f, flows.p, flows.t, flows.swu;
    }

    /** The start of `_calculate_staging`: an up-to-date calculator returns
        its stored stage numbers untouched; otherwise the process selects the
        initial guesses and the bound of the minimiser search. */
    method CalculateStaging() returns (r: Result<Staging>)
      ensures uptodate ==> r == Success(Cached(nE, nS))
      ensures !uptodate && process == "diffusion" ==> r == Success(Search([500.0, 1000.0, 5000.0], [100.0, 500.0, 1000.0, 5000.0], 7000.0))
      ensures !uptodate && process == "centrifuge" ==> r == Success(Search([5.0, 10.0, 50.0], [1.0, 5.0, 10.0, 50.0], 200.0))
      ensures !uptodate && !IsProcess(process) ==> r.Failure? && r.error.ValueError?
    {
      if uptodate {
        return Success(Cached(nE, nS));
      }
      if process == "diffusion" {
        r := Success(Search([500.0, 1000.0, 5000.0], [100.0, 500.0, 1000.0, 5000.0], 7000.0));
      } else if process == "centrifuge" {
        r := Success(Search([5.0, 10.0, 50.0], [1.0, 5.0, 10.0, 50.0], 200.0));
      } else {
        r := Failure(ValueError(ProcessStagingMsg));
      }
    }
  }

  /** Every successful setter clears the cache flag, so a following staging
      call searches again instead of returning stale stage numbers. */
  method SetterInvalidatesCache(m: MultiIsotope, xp': real) returns (r: Result<Staging>)
    requires m.Valid() && IsProcess(m.process)
    modifies m
    ensures r.Success? && (old(m.uptodate) && !(0.0 <= xp' <= 1.0 && xp' > old(m.xf)[U235Index]) ==> r.value.Cached?)
    ensures 0.0 <= xp' <= 1.0 && xp' > old(m.xf)[U235Index] ==> r.Success? && r.value.Search?
  {
    var o := m.SetProductEnrichment(xp');
    r := m.CalculateStaging();
  }
}
