/**
 * The meaning of one read-path assembly pass: the template document, the
 * registry walked in order with best-effort omission of failed reads, the
 * sensor section allocated lazily, then the modifier chain in order.
 * `rs[i]` is the result of reading `specs[i]` during the pass.
 */
module Assembly {
  import opened Wrappers
  import opened Api
  import opened Sensors

  /** The section a successful read is appended to: the present one, or a fresh empty one. */
  function SectionOrEmpty(doc: Status): Api.Sensors {
    if doc.sensors.Some? then doc.sensors.value else EmptySensors
  }

  /** One iteration of the sensor loop. */
  function Step(doc: Status, spec: SensorSpec, r: Result<string, SensorError>): Status {
    match r
    case Failure(_) => doc
    case Success(value) => doc.(sensors := Some(spec.template(value, SectionOrEmpty(doc))))
  }

  /** The document after walking the whole registry. */
  function FillSensors(doc: Status, specs: seq<SensorSpec>, rs: seq<Result<string, SensorError>>): Status
    requires |rs| == |specs|
    decreases |specs|
  {
    if |specs| == 0 then doc
    else
      var n := |specs| - 1;
      Step(FillSensors(doc, specs[..n], rs[..n]), specs[n], rs[n])
  }

  /** The modifiers applied to `doc`, first to last, each to the previous one's output. */
  function ApplyModifiers(doc: Status, ms: seq<StatusModifier>): Status
    decreases |ms|
  {
    if |ms| == 0 then doc
    else
      var n := |ms| - 1;
      ms[n](ApplyModifiers(doc, ms[..n]))
  }

  /** The document one read pass produces, before serialisation. */
  function Assemble(status: Status, specs: seq<SensorSpec>, rs: seq<Result<string, SensorError>>,
                    ms: seq<StatusModifier>): Status
    requires |rs| == |specs|
  {
    ApplyModifiers(FillSensors(status, specs, rs), ms)
  }

  /** Every position in `idx` is that of a successful read. */
  ghost predicate AllSucceeded(rs: seq<Result<string, SensorError>>, idx: seq<nat>) {
    forall k :: 0 <= k < |idx| ==> idx[k] < |rs| && rs[idx[k]].Success?
  }

  /** The positions of the successful reads, in registry order. */
  function SuccessIndices(rs: seq<Result<string, SensorError>>): (idx: seq<nat>)
    ensures AllSucceeded(rs, idx)
    decreases |rs|
  {
    if |rs| == 0 then []
    else
      var n := |rs| - 1;
      SuccessIndices(rs[..n]) + (if rs[n].Success? then [n] else [])
  }

  /** The templates of the sensors at `idx` applied to `s`, in the order of `idx`. */
  function ApplyTemplates(s: Api.Sensors, specs: seq<SensorSpec>, rs: seq<Result<string, SensorError>>,
                          idx: seq<nat>): Api.Sensors
    requires |rs| == |specs|
    requires AllSucceeded(rs, idx)
    decreases |idx|
  {
    if |idx| == 0 then s
    else
      var n := |idx| - 1;
      var i := idx[n];
      specs[i].template(rs[i].value, ApplyTemplates(s, specs, rs, idx[..n]))
  }

  /** Walking a registry is walking its first part, then walking the rest from there. */
  lemma {:induction false} FillSensorsAppend(doc: Status, s1: seq<SensorSpec>, r1: seq<Result<string, SensorError>>,
                                             s2: seq<SensorSpec>, r2: seq<Result<string, SensorError>>)
    requires |r1| == |s1| && |r2| == |s2|
    ensures FillSensors(doc, s1 + s2, r1 + r2) == FillSensors(FillSensors(doc, s1, r1), s2, r2)
    decreases |s2|
  {
    if |s2| == 0 {
      assert s1 + s2 == s1 && r1 + r2 == r1;
    } else {
      var n := |s2| - 1;
      FillSensorsAppend(doc, s1, r1, s2[..n], r2[..n]);
      assert (s1 + s2)[..|s1| + n] == s1 + s2[..n];
      assert (r1 + r2)[..|r1| + n] == r1 + r2[..n];
    }
  }

  /**
   * A sensor whose read fails contributes nothing: the pass gives the same
   * document as a pass over the registry without that sensor.
   */
  lemma FailedSensorOmitted(doc: Status, specs: seq<SensorSpec>, rs: seq<Result<string, SensorError>>, i: nat)
    requires |rs| == |specs| && i < |specs|
    requires rs[i].Failure?
    ensures FillSensors(doc, specs, rs) == FillSensors(doc, specs[..i] + specs[i + 1..], rs[..i] + rs[i + 1..])
  {
    assert specs == specs[..i] + ([specs[i]] + specs[i + 1..]);
    assert rs == rs[..i] + ([rs[i]] + rs[i + 1..]);
    FillSensorsAppend(doc, specs[..i], rs[..i], [specs[i]] + specs[i + 1..], [rs[i]] + rs[i + 1..]);
    var mid := FillSensors(doc, specs[..i], rs[..i]);
    FillSensorsAppend(mid, [specs[i]], [rs[i]], specs[i + 1..], rs[i + 1..]);
    assert FillSensors(mid, [specs[i]], [rs[i]]) == mid by {
      assert [specs[i]][..0] == [] && [rs[i]][..0] == [];
    }
    FillSensorsAppend(doc, specs[..i], rs[..i], specs[i + 1..], rs[i + 1..]);
  }

  /** The pass over the first `m` sensors, as a chain of template calls on the section. */
  lemma {:induction false} FillPrefixIsTemplateChain(doc: Status, specs: seq<SensorSpec>,
                                                     rs: seq<Result<string, SensorError>>, m: nat)
    requires |rs| == |specs| && m <= |specs|
    ensures var idx := SuccessIndices(rs[..m]);
            FillSensors(doc, specs[..m], rs[..m]) ==
              if |idx| == 0 then doc
              else doc.(sensors := Some(ApplyTemplates(SectionOrEmpty(doc), specs, rs, idx)))
  {
    if m > 0 {
      var n := m - 1;
      FillPrefixIsTemplateChain(doc, specs, rs, n);
      assert specs[..m][..n] == specs[..n] && rs[..m][..n] == rs[..n];
      var before := FillSensors(doc, specs[..n], rs[..n]);
      assert FillSensors(doc, specs[..m], rs[..m]) == Step(before, specs[n], rs[n]);
      var prev := SuccessIndices(rs[..n]);
      var idx := SuccessIndices(rs[..m]);
      assert idx == prev + (if rs[n].Success? then [n] else []);
      assert AllSucceeded(rs, prev) by {
        assert forall k :: 0 <= k < |prev| ==> prev[k] < n && rs[prev[k]] == rs[..n][prev[k]];
      }
      var base := SectionOrEmpty(doc);
      if rs[n].Failure? {
        assert idx == prev;
      } else {
        assert idx[..|idx| - 1] == prev;
        var t := specs[n].template(rs[n].value, if |prev| == 0 then base else ApplyTemplates(base, specs, rs, prev));
        assert ApplyTemplates(base, specs, rs, idx) == t;
        assert Step(before, specs[n], rs[n]) == doc.(sensors := Some(t));
      }
    }
  }

  /**
   * The lazily allocated section: after the pass, the document is the template
   * document if no read succeeded; otherwise only its section changed, and it
   * is the present section (or, when absent, a fresh empty one) passed through
   * the templates of the successful sensors, once each, in registry order.
   */
  lemma FillSensorsIsTemplateChain(doc: Status, specs: seq<SensorSpec>, rs: seq<Result<string, SensorError>>)
    requires |rs| == |specs|
    ensures var idx := SuccessIndices(rs);
            FillSensors(doc, specs, rs) ==
              if |idx| == 0 then doc
              else doc.(sensors := Some(ApplyTemplates(SectionOrEmpty(doc), specs, rs, idx)))
  {
    FillPrefixIsTemplateChain(doc, specs, rs, |specs|);
    assert specs[..|specs|] == specs && rs[..|rs|] == rs;
  }

  /** The successful positions are exactly the successful reads, strictly increasing. */
  lemma {:induction false} SuccessIndicesExact(rs: seq<Result<string, SensorError>>)
    ensures var idx := SuccessIndices(rs);
            (forall i :: i in idx <==> 0 <= i < |rs| && rs[i].Success?) &&
            (forall k, l :: 0 <= k < l < |idx| ==> idx[k] < idx[l])
    decreases |rs|
  {
    if |rs| > 0 {
      var n := |rs| - 1;
      SuccessIndicesExact(rs[..n]);
      var prev := SuccessIndices(rs[..n]);
      assert forall i :: i in prev ==> i < n && rs[i] == rs[..n][i];
      assert forall i :: 0 <= i < n ==> rs[..n][i] == rs[i];
    }
  }

  /** The section is present after the pass iff it was present or some sensor was read. */
  lemma {:induction false} SectionPresentIff(doc: Status, specs: seq<SensorSpec>, rs: seq<Result<string, SensorError>>)
    requires |rs| == |specs|
    ensures FillSensors(doc, specs, rs).sensors.Some? <==>
              doc.sensors.Some? || exists i :: 0 <= i < |rs| && rs[i].Success?
  {
    FillSensorsIsTemplateChain(doc, specs, rs);
    SuccessIndicesExact(rs);
    var idx := SuccessIndices(rs);
    if |idx| > 0 {
      assert idx[0] in idx;
    }
  }

  /** When no sensor can be read, the pass leaves the document (and its section) as it was. */
  lemma {:induction false} NoSuccessKeepsDocument(doc: Status, specs: seq<SensorSpec>,
                                                  rs: seq<Result<string, SensorError>>)
    requires |rs| == |specs|
    requires forall i :: 0 <= i < |rs| ==> rs[i].Failure?
    ensures FillSensors(doc, specs, rs) == doc
    decreases |specs|
  {
    if |specs| > 0 {
      var n := |specs| - 1;
      assert forall i :: 0 <= i < n ==> rs[..n][i] == rs[i];
      NoSuccessKeepsDocument(doc, specs[..n], rs[..n]);
    }
  }

  /** Running a chain of modifiers is running its first part, then the rest on that output. */
  lemma {:induction false} ApplyModifiersAppend(doc: Status, ms1: seq<StatusModifier>, ms2: seq<StatusModifier>)
    ensures ApplyModifiers(doc, ms1 + ms2) == ApplyModifiers(ApplyModifiers(doc, ms1), ms2)
    decreases |ms2|
  {
    if |ms2| == 0 {
      assert ms1 + ms2 == ms1;
    } else {
      var n := |ms2| - 1;
      ApplyModifiersAppend(doc, ms1, ms2[..n]);
      assert (ms1 + ms2)[..|ms1| + n] == ms1 + ms2[..n];
    }
  }

  /** Modifiers run in registration order: the second sees the first one's output. */
  lemma ModifiersRunInOrder(doc: Status, m1: StatusModifier, m2: StatusModifier)
    ensures ApplyModifiers(doc, [m1, m2]) == m2(m1(doc))
  {
    assert [m1, m2][..1] == [m1];
    assert [m1][..0] == [];
    assert ApplyModifiers(doc, [m1]) == m1(doc);
  }

  /**
   * The first modifier sees the assembled document and the remaining ones run
   * on its output.
   */
  lemma FirstModifierSeesAssembled(doc: Status, m: StatusModifier, ms: seq<StatusModifier>)
    ensures ApplyModifiers(doc, [m] + ms) == ApplyModifiers(m(doc), ms)
  {
    ApplyModifiersAppend(doc, [m], ms);
    assert [m][..0] == [];
  }
}
