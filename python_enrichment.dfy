/** The C++ bridge to the Python calculator (`PythonEnrichment`): the name of
    the exchange file, the request document written into it, how the Python
    side binds that document to the keyword parameters of
    `Multi_isotope.__init__`, and the order in which `RunEnrichment` reports
    its failures.

    The Python interpreter, the file streams and `std::remove` are not
    computed: their observable results (exit codes, the file the calculator
    leaves behind, whether a delete succeeds) are inputs of the model. */
module PythonEnrichment {
  import opened Wrappers
  import opened Decimal
  import H = MultiIsotopeHelper
  import C = Calculator

  // ---------------------------------------------------------------------------
  // JSON values

  /** The part of JSON the exchange documents use: numbers, strings and
      objects. */
  datatype Json = JNum(num: real) | JStr(str: string) | JObj(fields: map<string, Json>)

  // ---------------------------------------------------------------------------
  // Exchange file name

  const Stem: string := "enrichment_params_and_results"
  const Extension: string := ".json"

  /** The constructor's file name: the stem, then `_uid` when a uid is
      given, then the extension. */
  function FileName(uid: string): (fname: string)
    ensures |fname| >= |Stem| + |Extension|
    ensures fname[..|Stem|] == Stem && fname[|fname| - |Extension|..] == Extension
    ensures uid == [] ==> |fname| == |Stem| + |Extension|
    ensures uid != [] ==> fname[|Stem|] == '_' && fname[|Stem| + 1..|fname| - |Extension|] == uid
  {
    if uid == [] then Stem + Extension else Stem + "_" + uid + Extension
  }

  /** Recovers the uid from a file name, if it is one of the constructor's. */
  function UidOf(fname: string): (r: Option<string>)
    ensures r.Some? ==> FileName(r.value) == fname
  {
    if fname == Stem + Extension then
      Some([])
    else if |fname| > |Stem| + 1 + |Extension| && fname[..|Stem| + 1] == Stem + "_" &&
            fname[|fname| - |Extension|..] == Extension then
      var uid := fname[|Stem| + 1..|fname| - |Extension|];
      assert fname == Stem + "_" + uid + Extension;
      Some(uid)
    else
      None
  }

  /** The uid can be read back from the file name. */
  lemma UidRoundTrip(uid: string)
    ensures UidOf(FileName(uid)) == Some(uid)
  {
    var fname := FileName(uid);
    if uid != [] {
      assert fname != Stem + Extension by {
        assert |fname| != |Stem + Extension|;
      }
      assert fname[..|Stem| + 1] == Stem + "_";
    }
  }

  /** Different uids never share an exchange file. */
  lemma FileNameInjective(uid1: string, uid2: string)
    requires FileName(uid1) == FileName(uid2)
    ensures uid1 == uid2
  {
    UidRoundTrip(uid1);
    UidRoundTrip(uid2);
  }

  // ---------------------------------------------------------------------------
  // cyclus::compmath::Normalize

  /** A finite non-empty set of keys has a least element. */
  lemma {:induction false} LeastKeyExists(keys: set<int>)
    requires keys != {}
    ensures exists k :: k in keys && forall j :: j in keys ==> k <= j
    decreases |keys|
  {
    var x := PickKey(keys);
    var rest := keys - {x};
    if rest == {} {
      forall j | j in keys
        ensures x <= j
      {
        assert j !in rest;
      }
    } else {
      LeastKeyExists(rest);
      var y :| y in rest && forall j :: j in rest ==> y <= j;
      var least := if x < y then x else y;
      forall j | j in keys
        ensures least <= j
      {
        if j != x {
          assert j in rest;
        }
      }
      assert least in keys;
    }
  }

  /** Some element of a non-empty set. */
  lemma PickKey(keys: set<int>) returns (x: int)
    requires keys != {}
    ensures x in keys
  {
    if forall e :: e !in keys {
      assert false;
    }
    var e :| e in keys;
    x := e;
  }

  /** Sum of all entries of a composition map, uranium or not, in increasing
      key order as a `std::map` is traversed. */
  function MapSum(m: H.CompMap): real
    decreases |m|
  {
    if |m| == 0 then 0.0
    else
      LeastKeyExists(m.Keys);
      var k :| k in m && forall j :: j in m ==> k <= j;
      m[k] + MapSum(m - {k})
  }

  /** `MapSum` takes the least key first. */
  lemma MapSumLeast(m: H.CompMap, j: int)
    requires j in m && forall i :: i in m ==> j <= i
    ensures MapSum(m) == m[j] + MapSum(m - {j})
  {
  }

  /** The sum may be split at any key, not only at the least one. */
  lemma {:induction false} MapSumRemove(m: H.CompMap, k: int)
    requires k in m
    ensures MapSum(m) == m[k] + MapSum(m - {k})
    decreases |m|
  {
    LeastKeyExists(m.Keys);
    var j :| j in m && forall i :: i in m ==> j <= i;
    MapSumLeast(m, j);
    if j != k {
      var both := m - {j, k};
      assert |m - {j}| < |m| && |m - {k}| < |m| by {
        assert m.Keys - {j} < m.Keys && m.Keys - {k} < m.Keys;
        assert (m - {j}).Keys == m.Keys - {j} && (m - {k}).Keys == m.Keys - {k};
      }
      MapSumRemove(m - {j}, k);
      MapSumRemove(m - {k}, j);
      RemoveTwice(m, j, k);
      RemoveTwice(m, k, j);
      assert {k, j} == {j, k};
      assert (m - {j})[k] == m[k] && (m - {k})[j] == m[j];
      var rest := MapSum(both);
      assert MapSum(m - {j}) == m[k] + rest;
      assert MapSum(m - {k}) == m[j] + rest;
    }
  }

  lemma RemoveTwice(m: H.CompMap, j: int, k: int)
    ensures m - {j} - {k} == m - {j, k}
  {
    assert (m - {j} - {k}).Keys == (m - {j, k}).Keys;
  }

  function ScaleMap(m: H.CompMap, c: real): (n: H.CompMap)
    requires c != 0.0
    ensures n.Keys == m.Keys
    ensures forall k :: k in m ==> n[k] == m[k] / c
  {
    map k | k in m :: m[k] / c
  }

  /** Dividing every entry by `c` divides the sum by `c`. */
  lemma {:induction false} MapSumScaled(m: H.CompMap, c: real)
    requires c != 0.0
    ensures MapSum(ScaleMap(m, c)) == MapSum(m) / c
    decreases |m|
  {
    if |m| != 0 {
      var k := PickKey(m.Keys);
      var n := ScaleMap(m, c);
      MapSumRemove(m, k);
      MapSumRemove(n, k);
      assert n - {k} == ScaleMap(m - {k}, c);
      MapSumScaled(m - {k}, c);
      H.DivAdd(m[k], MapSum(m - {k}), c);
    }
  }

  /** `Normalize`: every entry divided by the sum of all entries; a map
      whose entries sum to 0 is left as it is. */
  function Normalize(m: H.CompMap): (n: H.CompMap)
    ensures n.Keys == m.Keys
    ensures MapSum(m) != 0.0 ==> MapSum(n) == 1.0
    ensures MapSum(m) != 0.0 ==> forall k :: k in m ==> n[k] == m[k] / MapSum(m)
    ensures MapSum(m) == 0.0 ==> n == m
  {
    var total := MapSum(m);
    if total == 0.0 then m
    else
      MapSumScaled(m, total);
      DivSelf(total);
      ScaleMap(m, total)
  }

  lemma DivSelf(x: real)
    requires x != 0.0
    ensures x / x == 1.0
  {
  }

  // ---------------------------------------------------------------------------
  // Nuclide keys

  /** `std::to_string` of an `int`. */
  function IdKey(id: int): (key: string)
    ensures id >= 0 ==> key == NatToString(id)
    ensures |key| > 0 && (key[0] == '-' <==> id < 0)
  {
    if id < 0 then "-" + NatToString(-id) else NatToString(id)
  }

  /** Distinct identifiers get distinct keys. */
  lemma IdKeyInjective(a: int, b: int)
    requires IdKey(a) == IdKey(b)
    ensures a == b
  {
    if a < 0 && b < 0 {
      assert NatToString(-a) == IdKey(a)[1..] == IdKey(b)[1..] == NatToString(-b);
      NatToStringInjective(-a, -b);
    } else if a >= 0 && b >= 0 {
      NatToStringInjective(a, b);
    }
  }

  lemma RenderPrefix()
    ensures NatToString(9223) == "9223"
  {
    AppendDigit(9, 2);
    AppendDigit(92, 2);
    AppendDigit(922, 3);
  }

  /** A trailing zero is appended by multiplying by 10. */
  lemma RenderTimes10(n: nat)
    requires n > 0
    ensures NatToString(n * 10) == NatToString(n) + "0"
  {
    AppendDigit(n, 0);
  }

  /** Four trailing zeros are appended by multiplying by 10000. */
  lemma RenderTimes10000(n: nat)
    requires n > 0
    ensures NatToString(n * 10000) == NatToString(n) + "0000"
  {
    var s := NatToString(n);
    RenderTimes10(n);
    RenderTimes10(n * 10);
    assert NatToString(n * 100) == s + "00" by {
      assert n * 10 * 10 == n * 100;
    }
    RenderTimes10(n * 100);
    assert NatToString(n * 1000) == s + "000" by {
      assert n * 100 * 10 == n * 1000;
    }
    RenderTimes10(n * 1000);
    assert n * 1000 * 10 == n * 10000;
  }

  /** Renders 9223d0000, the identifier of the uranium isotope 230 + d. */
  lemma UraniumIdRendering(d: nat)
    requires d < 10
    ensures NatToString((92230 + d) * 10000) == "9223" + [DigitChar(d)] + "0000"
  {
    RenderPrefix();
    AppendDigit(9223, d);
    assert NatToString(92230 + d) == "9223" + [DigitChar(d)];
    RenderTimes10000(92230 + d);
  }

  /** The key written for the i-th uranium identifier is the i-th nuclide
      name the calculator accepts. */
  lemma UraniumKey(i: nat)
    requires i < 6
    ensures IdKey(H.NucIDs[i]) == C.AllowedNuclides[i]
  {
    var d: nat := H.MassNumbers[i] - 230;
    assert d < 10 && H.NucIDs[i] == (92230 + d) * 10000 && C.AllowedNuclides[i] == "9223" + [DigitChar(d)] + "0000" by {
      if i == 0 {
      } else if i == 1 {
      } else if i == 2 {
      } else if i == 3 {
      } else if i == 4 {
      } else {
        assert i == 5;
      }
    }
    UraniumIdRendering(d);
  }

  /** The keys written for the six uranium identifiers are exactly the
      nuclide names the calculator accepts, in the same order. */
  lemma UraniumKeys()
    ensures forall i :: 0 <= i < 6 ==> IdKey(H.NucIDs[i]) == C.AllowedNuclides[i]
  {
    forall i | 0 <= i < 6
      ensures IdKey(H.NucIDs[i]) == C.AllowedNuclides[i]
    {
      UraniumKey(i);
    }
  }

  // ---------------------------------------------------------------------------
  // The request document of `ParamsToOutFile_`

  /** The smallest positive normal double, `std::numeric_limits<double>::min()`. */
  const DoubleMin: real := 2.2250738585072014e-308

  /** `cyclus::AlmostEq(x, 0.)`, assuming cyclus' comparison within a few
      units in the last place relative to |x + 0|, or absolutely below the
      smallest normal double. Against zero the relative test never holds for
      a non-zero x, so only zero and subnormal fractions count as zero. */
  predicate AlmostZero(x: real) {
    -DoubleMin < x < DoubleMin
  }

  /** The `feed_composition` entries written for the identifiers `ids`, in
      order: the decimal key of each identifier whose (normalised) fraction
      is not almost zero, with that fraction. A missing identifier reads as
      0, as `std::map::operator[]` does. */
  function FeedFractions(norm: H.CompMap, ids: seq<int>): map<string, real> {
    if ids == [] then map[]
    else
      var rest := FeedFractions(norm, ids[..|ids| - 1]);
      var id := ids[|ids| - 1];
      if AlmostZero(H.Entry(norm, id)) then rest else rest[IdKey(id) := H.Entry(norm, id)]
  }

  /** A key is written exactly when some identifier renders to it and its
      fraction is not almost zero; the value is that identifier's fraction. */
  lemma FeedFractionsContents(norm: H.CompMap, ids: seq<int>)
    ensures forall key :: key in FeedFractions(norm, ids) <==>
              exists j :: 0 <= j < |ids| && IdKey(ids[j]) == key && !AlmostZero(H.Entry(norm, ids[j]))
    ensures forall j :: 0 <= j < |ids| && !AlmostZero(H.Entry(norm, ids[j])) ==>
              IdKey(ids[j]) in FeedFractions(norm, ids) &&
              FeedFractions(norm, ids)[IdKey(ids[j])] == H.Entry(norm, ids[j])
  {
    FeedFractionsWritten(norm, ids);
    FeedFractionsOnlyWritten(norm, ids);
  }

  /** Every identifier with a fraction not almost zero is written, with
      its fraction. */
  lemma {:induction false} FeedFractionsWritten(norm: H.CompMap, ids: seq<int>)
    ensures forall j :: 0 <= j < |ids| && !AlmostZero(H.Entry(norm, ids[j])) ==>
              IdKey(ids[j]) in FeedFractions(norm, ids) &&
              FeedFractions(norm, ids)[IdKey(ids[j])] == H.Entry(norm, ids[j])
  {
    if ids != [] {
      var init, last := ids[..|ids| - 1], ids[|ids| - 1];
      var rest := FeedFractions(norm, init);
      var ff := FeedFractions(norm, ids);
      assert ff == if AlmostZero(H.Entry(norm, last)) then rest else rest[IdKey(last) := H.Entry(norm, last)];
      FeedFractionsWritten(norm, init);
      forall j | 0 <= j < |ids| && !AlmostZero(H.Entry(norm, ids[j]))
        ensures IdKey(ids[j]) in ff && ff[IdKey(ids[j])] == H.Entry(norm, ids[j])
      {
        if IdKey(ids[j]) == IdKey(last) {
          IdKeyInjective(ids[j], last);
        } else {
          assert ids[j] == init[j];
        }
      }
    }
  }

  /** Only such identifiers are written. */
  lemma {:induction false} FeedFractionsOnlyWritten(norm: H.CompMap, ids: seq<int>)
    ensures forall key :: key in FeedFractions(norm, ids) ==>
              exists j :: 0 <= j < |ids| && IdKey(ids[j]) == key && !AlmostZero(H.Entry(norm, ids[j]))
  {
    if ids != [] {
      var init, last := ids[..|ids| - 1], ids[|ids| - 1];
      var rest := FeedFractions(norm, init);
      var ff := FeedFractions(norm, ids);
      assert ff == if AlmostZero(H.Entry(norm, last)) then rest else rest[IdKey(last) := H.Entry(norm, last)];
      FeedFractionsOnlyWritten(norm, init);
      forall key | key in ff
        ensures exists j :: 0 <= j < |ids| && IdKey(ids[j]) == key && !AlmostZero(H.Entry(norm, ids[j]))
      {
        if key in rest {
          var j :| 0 <= j < |init| && IdKey(init[j]) == key && !AlmostZero(H.Entry(norm, init[j]));
          assert ids[j] == init[j];
        } else {
          assert IdKey(ids[|ids| - 1]) == key;
        }
      }
    }
  }

  /** The feed object as it is written: each fraction as a JSON number. */
  function FeedObject(fractions: map<string, real>): (obj: map<string, Json>)
  {
    map key | key in fractions :: JNum(fractions[key])
  }

  /** The fractions `ParamsToOutFile_` writes for a feed. */
  function WrittenFeed(feed: H.CompMap): map<string, real> {
    FeedFractions(Normalize(feed), H.NucIDs)
  }

  /** Every written key is a nuclide name the calculator accepts; the i-th
      name is written exactly when the i-th normalised fraction is not almost
      zero, and then with that fraction. In particular U-235 reaches the
      calculator exactly when its normalised fraction is not almost zero. */
  lemma WrittenFeedNuclides(feed: H.CompMap)
    ensures C.AllAllowed(WrittenFeed(feed))
    ensures forall i :: 0 <= i < 6 ==>
              (C.AllowedNuclides[i] in WrittenFeed(feed) <==> !AlmostZero(H.Entry(Normalize(feed), H.NucIDs[i])))
    ensures forall i :: 0 <= i < 6 && C.AllowedNuclides[i] in WrittenFeed(feed) ==>
              WrittenFeed(feed)[C.AllowedNuclides[i]] == H.Entry(Normalize(feed), H.NucIDs[i])
    ensures C.AllowedNuclides[C.U235Index] in WrittenFeed(feed) <==> !AlmostZero(H.Entry(Normalize(feed), H.NucIDs[C.U235Index]))
  {
    var norm := Normalize(feed);
    var written := WrittenFeed(feed);
    FeedFractionsContents(norm, H.NucIDs);
    UraniumKeys();
    forall key | key in written
      ensures key in C.AllowedNuclides
    {
      var j :| 0 <= j < 6 && IdKey(H.NucIDs[j]) == key && !AlmostZero(H.Entry(norm, H.NucIDs[j]));
      assert key == C.AllowedNuclides[j];
    }
    forall i | 0 <= i < 6 && C.AllowedNuclides[i] in written
      ensures !AlmostZero(H.Entry(norm, H.NucIDs[i]))
      ensures written[C.AllowedNuclides[i]] == H.Entry(norm, H.NucIDs[i])
    {
      var j :| 0 <= j < 6 && IdKey(H.NucIDs[j]) == C.AllowedNuclides[i] && !AlmostZero(H.Entry(norm, H.NucIDs[j]));
      IdKeyInjective(H.NucIDs[j], H.NucIDs[i]);
    }
  }

  /** The request document: the feed object when it has any entry, then the
      scalar parameters, the process and the U-235 separation factor under
      the keyword names of `Multi_isotope.__init__`. */
  function RequestDocument(feed: H.CompMap, productAssay: real, tailsAssay: real, maxSwu: real,
                           gamma235: real, process: string, feedQty: real, productQty: real): map<string, Json>
  {
    var fractions := WrittenFeed(feed);
    var withFeed: map<string, Json> :=
      if fractions == map[] then map[] else map[C.FeedCompositionKey := JObj(FeedObject(fractions))];
    withFeed[C.ProductAssayKey := JNum(productAssay)][C.TailsAssayKey := JNum(tailsAssay)]
            [C.FeedQtyKey := JNum(feedQty)][C.ProductQtyKey := JNum(productQty)]
            [C.MaxSwuKey := JNum(maxSwu)][C.ProcessKey := JStr(process)][C.Alpha235Key := JNum(gamma235)]
  }

  /** Writing one more fraction writes one more JSON number. */
  lemma FeedObjectUpdate(fractions: map<string, real>, key: string, fraction: real)
    ensures FeedObject(fractions[key := fraction]) == FeedObject(fractions)[key := JNum(fraction)]
  {
  }

  /** The loop of `ParamsToOutFile_` over the identifiers `ids`. */
  method FeedEntries(norm: H.CompMap, ids: seq<int>) returns (fractions: map<string, real>, feedObj: map<string, Json>)
    ensures fractions == FeedFractions(norm, ids) && feedObj == FeedObject(fractions)
  {
    fractions, feedObj := map[], map[];
    for i := 0 to |ids|
      invariant fractions == FeedFractions(norm, ids[..i])
      invariant feedObj == FeedObject(fractions)
    {
      assert ids[..i + 1][..i] == ids[..i];
      var fraction := H.Entry(norm, ids[i]);
      if !AlmostZero(fraction) {
        FeedObjectUpdate(fractions, IdKey(ids[i]), fraction);
        fractions := fractions[IdKey(ids[i]) := fraction];
        feedObj := feedObj[IdKey(ids[i]) := JNum(fraction)];
      }
    }
    assert ids[..|ids|] == ids;
  }

  /** The document-building part of `ParamsToOutFile_`: normalise the feed,
      add one entry per uranium identifier whose fraction is not almost zero,
      then the scalar parameters. */
  method BuildDocument(feed: H.CompMap, productAssay: real, tailsAssay: real, maxSwu: real,
                       gamma235: real, process: string, feedQty: real, productQty: real)
    returns (doc: map<string, Json>)
    ensures doc == RequestDocument(feed, productAssay, tailsAssay, maxSwu, gamma235, process, feedQty, productQty)
  {
    var norm := Normalize(feed);
    var ids := H.IsotopesNucID();
    var fractions, feedObj := FeedEntries(norm, ids);
    doc := map[];
    if feedObj != map[] {
      doc := doc[C.FeedCompositionKey := JObj(feedObj)];
    }
    doc := doc[C.ProductAssayKey := JNum(productAssay)];
    doc := doc[C.TailsAssayKey := JNum(tailsAssay)];
    doc := doc[C.FeedQtyKey := JNum(feedQty)];
    doc := doc[C.ProductQtyKey := JNum(productQty)];
    doc := doc[C.MaxSwuKey := JNum(maxSwu)];
    doc := doc[C.ProcessKey := JStr(process)];
    doc := doc[C.Alpha235Key := JNum(gamma235)];
  }

  /** The document uses only keyword names of `Multi_isotope.__init__`,
      always carries the seven scalar parameters, and carries the feed
      composition exactly when some fraction is not almost zero. */
  lemma RequestDocumentKeys(feed: H.CompMap, productAssay: real, tailsAssay: real, maxSwu: real,
                            gamma235: real, process: string, feedQty: real, productQty: real)
    ensures var doc := RequestDocument(feed, productAssay, tailsAssay, maxSwu, gamma235, process, feedQty, productQty);
            doc.Keys <= C.InitKeywords &&
            (C.FeedCompositionKey in doc <==> WrittenFeed(feed) != map[]) &&
            (C.FeedCompositionKey in doc ==> doc[C.FeedCompositionKey] == JObj(FeedObject(WrittenFeed(feed)))) &&
            C.ProductAssayKey in doc && doc[C.ProductAssayKey] == JNum(productAssay) &&
            C.TailsAssayKey in doc && doc[C.TailsAssayKey] == JNum(tailsAssay) &&
            C.FeedQtyKey in doc && doc[C.FeedQtyKey] == JNum(feedQty) &&
            C.ProductQtyKey in doc && doc[C.ProductQtyKey] == JNum(productQty) &&
            C.MaxSwuKey in doc && doc[C.MaxSwuKey] == JNum(maxSwu) &&
            C.ProcessKey in doc && doc[C.ProcessKey] == JStr(process) &&
            C.Alpha235Key in doc && doc[C.Alpha235Key] == JNum(gamma235)
  {
  }

  /** The two separation-factor conventions agree: the C++ helper squares
      its U-235 factor before interpolating, the Python calculator
      interpolates the `alpha_235` it is given, so a helper factor beta
      corresponds to `alpha_235` = beta * beta, isotope by isotope. */
  lemma SeparationFactorConventions(beta: real)
    ensures forall i :: 0 <= i < 6 ==>
              C.CentrifugeAlpha(beta * beta)[i] == H.StageSeparationFactor(beta, H.MassNumbers[i])
  {
    assert H.MassNumbers == C.UraniumMasses;
  }

  // ---------------------------------------------------------------------------
  // Binding the document to `Multi_isotope.__init__` (`from_json`)

  /** The keyword arguments `Multi_isotope.from_json` passes on. */
  datatype InitArgs = InitArgs(feedComposition: map<string, real>, productAssay: real, tailsAssay: real,
                               process: string, alpha235: real, feedQty: real, productQty: real, maxSwu: real)

  /** np.inf, the default of the three quantities; any value above
      `Calculator.Unbounded` behaves the same in the calculator. */
  const Infinity: real := 1e300
  const DefaultAlpha235: real := 1.4

  const UnexpectedKeywordMsg: string := "__init__() got an unexpected keyword argument"
  const MissingArgumentMsg: string := "__init__() missing a required positional argument"
  const ArgumentKindMsg: string := "argument of the wrong kind"

  /** A keyword argument of `__init__` that `doc` does not know. */
  predicate HasUnexpected(doc: map<string, Json>) {
    exists key :: key in doc && key !in C.InitKeywords
  }

  /** The four parameters without a default. */
  predicate HasRequired(doc: map<string, Json>) {
    C.FeedCompositionKey in doc && C.ProductAssayKey in doc && C.TailsAssayKey in doc && C.ProcessKey in doc
  }

  /** An object all of whose fields are numbers. */
  predicate IsFractions(j: Json) {
    j.JObj? && forall key :: key in j.fields ==> j.fields[key].JNum?
  }

  /** An optional numeric keyword: absent means the default. */
  predicate NumberOrAbsent(doc: map<string, Json>, key: string) {
    key in doc ==> doc[key].JNum?
  }

  function NumberOr(doc: map<string, Json>, key: string, default: real): (x: real)
    requires NumberOrAbsent(doc, key)
  {
    if key in doc then doc[key].num else default
  }

  /** The fractions of a JSON object of numbers. */
  function Fractions(j: Json): (m: map<string, real>)
    requires IsFractions(j)
  {
    map key | key in j.fields :: j.fields[key].num
  }

  /** Reading a written feed object gives back the written fractions. */
  lemma FractionsOfFeedObject(fractions: map<string, real>)
    ensures IsFractions(JObj(FeedObject(fractions)))
    ensures Fractions(JObj(FeedObject(fractions))) == fractions
  {
    var back := Fractions(JObj(FeedObject(fractions)));
    assert back.Keys == fractions.Keys;
    forall key | key in back
      ensures back[key] == fractions[key]
    {
      assert JNum(back[key]) == JNum(fractions[key]);
    }
  }

  /** `cls(**input_data)`: an unknown keyword or a missing required one is a
      TypeError; absent optional keywords take their defaults. Python binds a
      value of the wrong JSON kind anyway and fails, if at all, in a later
      setter; the model refuses it here with `ArgumentKindMsg`. */
  function BindInitArgs(doc: map<string, Json>): (r: Result<InitArgs>)
    ensures HasUnexpected(doc) ==> r == Failure(TypeError(UnexpectedKeywordMsg))
    ensures !HasUnexpected(doc) && !HasRequired(doc) ==> r == Failure(TypeError(MissingArgumentMsg))
    ensures r.Success? ==>
              doc.Keys <= C.InitKeywords && HasRequired(doc) &&
              doc[C.FeedCompositionKey] == JObj(FeedObject(r.value.feedComposition)) &&
              doc[C.ProductAssayKey] == JNum(r.value.productAssay) &&
              doc[C.TailsAssayKey] == JNum(r.value.tailsAssay) &&
              doc[C.ProcessKey] == JStr(r.value.process)
    ensures r.Success? ==>
              (C.Alpha235Key in doc ==> doc[C.Alpha235Key] == JNum(r.value.alpha235)) && (C.Alpha235Key !in doc ==> r.value.alpha235 == DefaultAlpha235) &&
              (C.FeedQtyKey in doc ==> doc[C.FeedQtyKey] == JNum(r.value.feedQty)) && (C.FeedQtyKey !in doc ==> r.value.feedQty == Infinity) &&
              (C.ProductQtyKey in doc ==> doc[C.ProductQtyKey] == JNum(r.value.productQty)) && (C.ProductQtyKey !in doc ==> r.value.productQty == Infinity) &&
              (C.MaxSwuKey in doc ==> doc[C.MaxSwuKey] == JNum(r.value.maxSwu)) && (C.MaxSwuKey !in doc ==> r.value.maxSwu == Infinity)
  {
    if HasUnexpected(doc) then Failure(TypeError(UnexpectedKeywordMsg))
    else if !HasRequired(doc) then Failure(TypeError(MissingArgumentMsg))
    else if !(IsFractions(doc[C.FeedCompositionKey]) && doc[C.ProductAssayKey].JNum? &&
              doc[C.TailsAssayKey].JNum? && doc[C.ProcessKey].JStr? &&
              NumberOrAbsent(doc, C.Alpha235Key) && NumberOrAbsent(doc, C.FeedQtyKey) &&
              NumberOrAbsent(doc, C.ProductQtyKey) && NumberOrAbsent(doc, C.MaxSwuKey))
    then Failure(TypeError(ArgumentKindMsg))
    else
      var fractions := Fractions(doc[C.FeedCompositionKey]);
      assert FeedObject(fractions) == doc[C.FeedCompositionKey].fields;
      Success(InitArgs(fractions, doc[C.ProductAssayKey].num, doc[C.TailsAssayKey].num,
                       doc[C.ProcessKey].str, NumberOr(doc, C.Alpha235Key, DefaultAlpha235),
                       NumberOr(doc, C.FeedQtyKey, Infinity), NumberOr(doc, C.ProductQtyKey, Infinity),
                       NumberOr(doc, C.MaxSwuKey, Infinity)))
  }

  /** Round trip: the calculator receives exactly the written fractions and
      the parameters `ParamsToOutFile_` was given. */
  lemma BindRequestDocument(feed: H.CompMap, productAssay: real, tailsAssay: real, maxSwu: real,
                            gamma235: real, process: string, feedQty: real, productQty: real)
    requires WrittenFeed(feed) != map[]
    ensures BindInitArgs(RequestDocument(feed, productAssay, tailsAssay, maxSwu, gamma235, process, feedQty, productQty))
            == Success(InitArgs(WrittenFeed(feed), productAssay, tailsAssay, process, gamma235, feedQty, productQty, maxSwu))
  {
    var doc := RequestDocument(feed, productAssay, tailsAssay, maxSwu, gamma235, process, feedQty, productQty);
    RequestDocumentKeys(feed, productAssay, tailsAssay, maxSwu, gamma235, process, feedQty, productQty);
    FractionsOfFeedObject(WrittenFeed(feed));
  }

  /** When every fraction is almost zero the document has no feed
      composition, and the calculator refuses it. */
  lemma EmptyFeedUnbound(feed: H.CompMap, productAssay: real, tailsAssay: real, maxSwu: real,
                         gamma235: real, process: string, feedQty: real, productQty: real)
    requires WrittenFeed(feed) == map[]
    ensures BindInitArgs(RequestDocument(feed, productAssay, tailsAssay, maxSwu, gamma235, process, feedQty, productQty))
            == Failure(TypeError(MissingArgumentMsg))
  {
    RequestDocumentKeys(feed, productAssay, tailsAssay, maxSwu, gamma235, process, feedQty, productQty);
  }

  /** `PythonEnrichment`: remembers its uid and the derived file name. */
  class Bridge {
    const uid: string
    const fname: string

    constructor (uid: string)
      ensures this.uid == uid && fname == FileName(uid)
    {
      this.uid := uid;
      fname := FileName(uid);
    }

    /** The default constructor delegates to the empty uid. */
    constructor Default()
      ensures uid == [] && fname == Stem + Extension
    {
      uid := [];
      fname := FileName([]);
    }

    /** `ParamsToOutFile_`: writes the request document to the exchange
        file; with `deleteOutfile` it then removes the file again, and a
        failed removal is an IOError. */
    method ParamsToOutFile(ws: Workspace, feed: H.CompMap, productAssay: real, tailsAssay: real, maxSwu: real,
                           gamma235: real, process: string, feedQty: real, productQty: real, deleteOutfile: bool)
      returns (r: Outcome)
      modifies ws`files
      ensures var written := old(ws.files)[fname := JObj(RequestDocument(feed, productAssay, tailsAssay, maxSwu,
                                                                         gamma235, process, feedQty, productQty))];
              if deleteOutfile && fname in ws.undeletable then
                r == Fail(IOError(DeleteFailedMsg(fname) + "\n")) && ws.files == written
              else
                r == Pass && ws.files == (if deleteOutfile then written - {fname} else written)
    {
      WriteRequest(ws, feed, productAssay, tailsAssay, maxSwu, gamma235, process, feedQty, productQty);
      r := Pass;
      if deleteOutfile {
        var code := ws.Remove(fname);
        if code != 0 {
          r := Fail(IOError(DeleteFailedMsg(fname) + "\n"));
        }
      }
    }

    /** The writing part of `ParamsToOutFile_`, which `RunEnrichment` uses
        with `delete_outfile` false. */
    method WriteRequest(ws: Workspace, feed: H.CompMap, productAssay: real, tailsAssay: real, maxSwu: real,
                        gamma235: real, process: string, feedQty: real, productQty: real)
      modifies ws`files
      ensures ws.files == old(ws.files)[fname := JObj(RequestDocument(feed, productAssay, tailsAssay, maxSwu,
                                                                      gamma235, process, feedQty, productQty))]
    {
      var doc := BuildDocument(feed, productAssay, tailsAssay, maxSwu, gamma235, process, feedQty, productQty);
      ws.Write(fname, JObj(doc));
    }

    /** `EnrichmentResults_`: the document in the exchange file, or an
        IOError when there is no such file. */
    method EnrichmentResults(ws: Workspace) returns (r: Result<Json>)
      ensures fname in ws.files ==> r == Success(ws.files[fname])
      ensures fname !in ws.files ==> r == Failure(IOError(MissingFileMsg(fname)))
    {
      if fname !in ws.files {
        return Failure(IOError(MissingFileMsg(fname)));
      }
      r := Success(ws.files[fname]);
    }

    /** `RunEnrichment`: write the request, run the calculator, read its
        results, delete the file. The first failing step decides the
        exception: a failed Python run is a cyclus Error before any result
        is read, a missing result file an IOError, a failed removal an
        IOError; otherwise the results are returned and the file is gone. */
    method RunEnrichment(ws: Workspace, run: PythonRun, feed: H.CompMap, productAssay: real, tailsAssay: real,
                         maxSwu: real, gamma235: real, process: string, feedQty: real, productQty: real)
      returns (r: Result<Json>)
      modifies ws`files
      ensures run.ExitCode() != 0 ==>
                r == Failure(CyclusError(PythonFailedMsg)) &&
                ws.files == old(ws.files)[fname := JObj(RequestDocument(feed, productAssay, tailsAssay, maxSwu,
                                                                        gamma235, process, feedQty, productQty))]
      ensures run.ExitCode() == 0 && run.output.None? ==>
                r == Failure(IOError(MissingFileMsg(fname))) && ws.files == old(ws.files) - {fname}
      ensures run.ExitCode() == 0 && run.output.Some? && fname in ws.undeletable ==>
                r == Failure(IOError(DeleteFailedMsg(fname))) && ws.files == old(ws.files)[fname := run.output.value]
      ensures run.ExitCode() == 0 && run.output.Some? && fname !in ws.undeletable ==>
                r == Success(run.output.value) && ws.files == old(ws.files) - {fname}
    {
      ghost var before := ws.files;
      WriteRequest(ws, feed, productAssay, tailsAssay, maxSwu, gamma235, process, feedQty, productQty);
      ghost var request := ws.files[fname];
      var exitCode := run.importCode;
      exitCode := exitCode + run.runCode;
      if exitCode != 0 {
        return Failure(CyclusError(PythonFailedMsg));
      }
      ws.Leave(fname, run.output);
      OverwriteThenLeave(before, fname, request, run.output);
      r := EnrichmentResults(ws);
      if r.Failure? {
        return;
      }
      var code := ws.Remove(fname);
      if code != 0 {
        r := Failure(IOError(DeleteFailedMsg(fname)));
      }
    }
  }

  /** Whatever the request was, the file afterwards is what the calculator
      left in it. */
  lemma OverwriteThenLeave(files: map<string, Json>, name: string, request: Json, output: Option<Json>)
    ensures output.Some? ==> files[name := request][name := output.value] == files[name := output.value]
    ensures output.None? ==> files[name := request] - {name} == files - {name}
    ensures output.Some? ==> files[name := output.value] - {name} == files - {name}
  {
  }

  const PythonFailedMsg: string := "Execution of Python enrichment calculations unsuccessful."

  function MissingFileMsg(fname: string): string {
    "Cannot find file '" + fname + "'"
  }

  function DeleteFailedMsg(fname: string): string {
    "Error deleting file '" + fname + "'."
  }

  /** What the embedded interpreter does in `RunEnrichment`: the results of
      the two `PyRun_SimpleString` calls (0 on success, -1 on an exception)
      and the document the calculator leaves in the exchange file, if any. */
  datatype PythonRun = PythonRun(importCode: int, runCode: int, output: Option<Json>) {
    /** The summed exit code `RunEnrichment` tests. */
    function ExitCode(): int {
      importCode + runCode
    }

    predicate Valid() {
      (importCode == 0 || importCode == -1) && (runCode == 0 || runCode == -1)
    }
  }

  /** With the only codes `PyRun_SimpleString` returns, the summed code is
      zero exactly when both calls succeeded: a failed import is never
      cancelled out by the second call. */
  lemma ExitCodeDetectsFailure(run: PythonRun)
    requires run.Valid()
    ensures run.ExitCode() == 0 <==> run.importCode == 0 && run.runCode == 0
  {
  }

  /** The working directory: the documents in its files, and the files
      `std::remove` cannot delete. */
  class Workspace {
    var files: map<string, Json>
    var undeletable: set<string>

    constructor (files: map<string, Json>, undeletable: set<string>)
      ensures this.files == files && this.undeletable == undeletable
    {
      this.files := files;
      this.undeletable := undeletable;
    }

    /** An `std::ofstream` with `trunc`: creates or overwrites the file. */
    method Write(name: string, doc: Json)
      modifies this`files
      ensures files == old(files)[name := doc]
    {
      files := files[name := doc];
    }

    /** The file as the Python side leaves it: its new document, or gone. */
    method Leave(name: string, doc: Option<Json>)
      modifies this`files
      ensures doc.Some? ==> files == old(files)[name := doc.value]
      ensures doc.None? ==> files == old(files) - {name}
    {
      if doc.Some? {
        files := files[name := doc.value];
      } else {
        files := files - {name};
      }
    }

    /** `std::remove`: 0 and the file is gone, or nonzero and nothing changes. */
    method Remove(name: string) returns (code: int)
      modifies this`files
      ensures code == 0 <==> name in old(files) && name !in undeletable
      ensures code == 0 ==> files == old(files) - {name}
      ensures code != 0 ==> files == old(files)
    {
      if name in files && name !in undeletable {
        files := files - {name};
        code := 0;
      } else {
        code := -1;
      }
    }
  }
}
