/** `TestResult.set_result` from app/schema.py: the validator that reads the parsed JUnit
    `<testcase>` element (as xmltodict produces it: attributes under "@name" keys, child
    elements under their tag, repeated children as a list) and records the test's outcome
    under the "result" key before the model's fields are validated. */
module Schema {
  import O = Outcomes

  /** A parsed XML value: `None`, a string, a list of repeated elements or a dict. */
  datatype Node = Null | Text(s: string) | List(items: seq<Node>) | Dict(entries: map<string, Node>)

  /** The `result` literal's domain. */
  datatype Verdict = Pass | Fail | Error | XFail | XPass | Skipped

  /** `.get` on something that is not a dict, the explicit `ValueError`, and pydantic
      rejecting a "result" value outside the literal's domain. */
  datatype ClassifyError = AttributeError | ValueError | ValidationError

  /** The literal string of each verdict. */
  function VerdictName(v: Verdict): string
  {
    match v
    case Pass => "pass"
    case Fail => "fail"
    case Error => "error"
    case XFail => "xfail"
    case XPass => "xpass"
    case Skipped => "skipped"
  }

  /** Literal validation of a "result" value: the verdict whose string it is, if any. */
  function ParseVerdict(n: Node): (v: O.Option<Verdict>)
    ensures v.Some? ==> n == Text(VerdictName(v.value))
  {
    match n
    case Text("pass") => O.Some(Pass)
    case Text("fail") => O.Some(Fail)
    case Text("error") => O.Some(Error)
    case Text("xfail") => O.Some(XFail)
    case Text("xpass") => O.Some(XPass)
    case Text("skipped") => O.Some(Skipped)
    case _ => O.None
  }

  /** Every verdict the validator writes is accepted by the literal, as itself. */
  lemma VerdictRoundTrip(v: Verdict)
    ensures ParseVerdict(Text(VerdictName(v))) == O.Some(v)
  {
  }

  /** Distinct verdicts have distinct strings. */
  lemma VerdictNamesDistinct(v: Verdict, w: Verdict)
    ensures VerdictName(v) == VerdictName(w) ==> v == w
  {
    VerdictRoundTrip(v);
    VerdictRoundTrip(w);
  }

  /** `dict.get(key)`: a missing key reads as `None`. */
  function Get(d: map<string, Node>, key: string): (n: Node)
    ensures key in d ==> n == d[key]
    ensures key !in d ==> n == Null
  {
    if key in d then d[key] else Null
  }

  /** `n.get(key)` on an arbitrary value: only dicts have `get`. */
  function GetOn(n: Node, key: string): (r: O.Result<Node, ClassifyError>)
    ensures r.Ok? <==> n.Dict?
    ensures r.Ok? ==> r.value == Get(n.entries, key)
    ensures r.Err? ==> r.error == AttributeError
  {
    match n
    case Dict(d) => O.Ok(Get(d, key))
    case _ => O.Err(AttributeError)
  }

  /** A property element marking an expected failure: `@name` is "xfail" and `@value` is
      "True". */
  predicate IsXfailMarker(d: map<string, Node>)
  {
    Get(d, "@name") == Text("xfail") && Get(d, "@value") == Text("True")
  }

  /** The scan of a property list: whether a marker is found, stopping at the first one;
      an element that is not a dict, reached before any marker, raises. */
  function ScanForXfail(items: seq<Node>): O.Result<bool, ClassifyError>
  {
    if items == [] then O.Ok(false)
    else match items[0]
      case Dict(d) => if IsXfailMarker(d) then O.Ok(true) else ScanForXfail(items[1..])
      case _ => O.Err(AttributeError)
  }

  /** The decision rule: the verdict to record (None when no branch assigns one), or the
      error raised. The checks run in order: skipped, failure, properties. */
  function Classify(value: map<string, Node>): (r: O.Result<O.Option<Verdict>, ClassifyError>)
    ensures r.Ok? && r.value.Some? ==> r.value.value in {XFail, Skipped, Fail, XPass}
  {
    var skipped := Get(value, "skipped");
    if skipped != Null then
      match GetOn(skipped, "@type")
      case Err(e) => O.Err(e)
      case Ok(t) => O.Ok(O.Some(if t == Text("pytest.xfail") then XFail else Skipped))
    else if Get(value, "failure") != Null then
      O.Ok(O.Some(Fail))
    else if Get(value, "properties") != Null then
      match GetOn(Get(value, "properties"), "property")
      case Err(e) => O.Err(e)
      case Ok(Null) => O.Ok(O.None)
      case Ok(List(items)) =>
        (match ScanForXfail(items)
         case Err(e) => O.Err(e)
         case Ok(found) => O.Ok(if found then O.Some(XPass) else O.None))
      case Ok(Dict(d)) => O.Ok(if IsXfailMarker(d) then O.Some(XPass) else O.None)
      case Ok(Text(_)) => O.Err(ValueError)
    else
      O.Ok(O.None)
  }

  /** The validator's effect on the dict: on a verdict, "result" is set to its string. */
  function Apply(value: map<string, Node>, c: O.Result<O.Option<Verdict>, ClassifyError>): (r: O.Result<map<string, Node>, ClassifyError>)
    ensures r.Ok? <==> c.Ok?
    ensures r.Ok? ==> r.value - {"result"} == value - {"result"}
    ensures c.Ok? && c.value.Some? ==> "result" in r.value && r.value["result"] == Text(VerdictName(c.value.value))
    ensures c.Ok? && c.value.None? ==> r.value == value
  {
    match c
    case Err(e) => O.Err(e)
    case Ok(None) => O.Ok(value)
    case Ok(Some(v)) => O.Ok(value["result" := Text(VerdictName(v))])
  }

  /** `set_result`: assigns "result" on the dict by the first branch that applies and
      returns the dict; the property list is scanned with a loop that stops at the first
      marker. */
  method SetResult(value: map<string, Node>) returns (r: O.Result<map<string, Node>, ClassifyError>)
    ensures r == Apply(value, Classify(value))
  {
    var v := value;
    var skipped := Get(v, "skipped");
    if skipped != Null {
      if !skipped.Dict? {
        return O.Err(AttributeError);
      }
      if Get(skipped.entries, "@type") == Text("pytest.xfail") {
        v := v["result" := Text("xfail")];
      } else {
        v := v["result" := Text("skipped")];
      }
    } else if Get(v, "failure") != Null {
      v := v["result" := Text("fail")];
    } else if Get(v, "properties") != Null {
      var holder := Get(v, "properties");
      if !holder.Dict? {
        return O.Err(AttributeError);
      }
      var properties := Get(holder.entries, "property");
      if properties.List? {
        var items := properties.items;
        var i := 0;
        while i < |items|
          invariant 0 <= i <= |items|
          invariant v == value
          invariant ScanForXfail(items) == ScanForXfail(items[i..])
        {
          var property := items[i];
          if !property.Dict? {
            return O.Err(AttributeError);
          }
          if Get(property.entries, "@name") == Text("xfail") && Get(property.entries, "@value") == Text("True") {
            v := v["result" := Text("xpass")];
            break;
          }
          assert items[i..][1..] == items[i + 1..];
          i := i + 1;
        }
      } else if properties.Dict? {
        if Get(properties.entries, "@name") == Text("xfail") && Get(properties.entries, "@value") == Text("True") {
          v := v["result" := Text("xpass")];
        }
      } else if properties != Null {
        return O.Err(ValueError);
      }
    }
    r := O.Ok(v);
  }

  /** The `result` field after validation: the recorded string read as a verdict, "pass"
      when nothing was recorded, an error when the validator raised or the recorded value
      is not one of the literal's strings. */
  function FinalVerdict(value: map<string, Node>): O.Result<Verdict, ClassifyError>
  {
    match Apply(value, Classify(value))
    case Err(e) => O.Err(e)
    case Ok(v) =>
      if "result" !in v then O.Ok(Pass)
      else match ParseVerdict(v["result"])
        case None => O.Err(ValidationError)
        case Some(x) => O.Ok(x)
  }

  //
  // Properties of the decision rule
  //

  /** A `skipped` element decides on its own: `failure` and `properties` are not looked at. */
  lemma SkippedPrecedence(v1: map<string, Node>, v2: map<string, Node>)
    requires Get(v1, "skipped") != Null && Get(v1, "skipped") == Get(v2, "skipped")
    ensures Classify(v1) == Classify(v2)
  {
  }

  /** xfail is recorded exactly when the skipped element's `@type` is "pytest.xfail";
      skipped exactly when there is a skipped element with any other `@type`. */
  lemma SkippedVerdicts(value: map<string, Node>)
    ensures Classify(value) == O.Ok(O.Some(XFail)) <==>
      Get(value, "skipped").Dict? && Get(Get(value, "skipped").entries, "@type") == Text("pytest.xfail")
    ensures Classify(value) == O.Ok(O.Some(Skipped)) <==>
      Get(value, "skipped").Dict? && Get(Get(value, "skipped").entries, "@type") != Text("pytest.xfail")
  {
  }

  /** fail is recorded exactly when there is no skipped element and there is a failure
      element, whatever the properties hold. */
  lemma FailureVerdict(value: map<string, Node>)
    ensures Classify(value) == O.Ok(O.Some(Fail)) <==>
      Get(value, "skipped") == Null && Get(value, "failure") != Null
  {
  }

  /** The k-th property is the first marker, and every property before it is a dict. */
  predicate FirstMarkerAt(items: seq<Node>, k: int)
  {
    && 0 <= k < |items|
    && items[k].Dict? && IsXfailMarker(items[k].entries)
    && forall j | 0 <= j < k :: items[j].Dict? && !IsXfailMarker(items[j].entries)
  }

  /** The k-th property is the first one that is not a dict, and no marker precedes it. */
  predicate FirstNonDictAt(items: seq<Node>, k: int)
  {
    && 0 <= k < |items|
    && !items[k].Dict?
    && forall j | 0 <= j < k :: items[j].Dict? && !IsXfailMarker(items[j].entries)
  }

  /** The scan finds a marker exactly when one comes before any element that is not a
      dict, and raises exactly when such an element comes first. */
  lemma {:induction false} ScanOutcome(items: seq<Node>)
    ensures ScanForXfail(items) == O.Ok(true) <==> exists k :: FirstMarkerAt(items, k)
    ensures ScanForXfail(items).Err? <==> exists k :: FirstNonDictAt(items, k)
    ensures ScanForXfail(items).Err? ==> ScanForXfail(items).error == AttributeError
  {
    if items != [] {
      var rest := items[1..];
      ScanOutcome(rest);
      if items[0].Dict? && !IsXfailMarker(items[0].entries) {
        if exists k :: FirstMarkerAt(rest, k) {
          var k :| FirstMarkerAt(rest, k);
          assert FirstMarkerAt(items, k + 1);
        }
        if exists k :: FirstMarkerAt(items, k) {
          var k :| FirstMarkerAt(items, k);
          assert FirstMarkerAt(rest, k - 1);
        }
        if exists k :: FirstNonDictAt(rest, k) {
          var k :| FirstNonDictAt(rest, k);
          assert FirstNonDictAt(items, k + 1);
        }
        if exists k :: FirstNonDictAt(items, k) {
          var k :| FirstNonDictAt(items, k);
          assert FirstNonDictAt(rest, k - 1);
        }
      } else if items[0].Dict? {
        assert FirstMarkerAt(items, 0);
        assert forall k :: !FirstNonDictAt(items, k);
      } else {
        assert FirstNonDictAt(items, 0);
        assert forall k :: !FirstMarkerAt(items, k);
      }
    }
  }

  /** xpass is recorded exactly when neither skipped nor failure is present, the
      properties element is a dict, and its property is either a single marker dict or a
      list whose first marker comes before any element that is not a dict. */
  lemma XPassVerdict(value: map<string, Node>)
    ensures Classify(value) == O.Ok(O.Some(XPass)) <==>
      && Get(value, "skipped") == Null && Get(value, "failure") == Null
      && Get(value, "properties").Dict?
      && var property := Get(Get(value, "properties").entries, "property");
         || (property.Dict? && IsXfailMarker(property.entries))
         || (property.List? && exists k :: FirstMarkerAt(property.items, k))
  {
    var holder := Get(value, "properties");
    if holder.Dict? && Get(holder.entries, "property").List? {
      ScanOutcome(Get(holder.entries, "property").items);
    }
  }

  /** The explicit ValueError is raised exactly when the property is a plain string. */
  lemma ValueErrorCase(value: map<string, Node>)
    ensures Classify(value) == O.Err(ValueError) <==>
      && Get(value, "skipped") == Null && Get(value, "failure") == Null
      && Get(value, "properties").Dict?
      && Get(Get(value, "properties").entries, "property").Text?
  {
    var holder := Get(value, "properties");
    if holder.Dict? && Get(holder.entries, "property").List? {
      ScanOutcome(Get(holder.entries, "property").items);
    }
  }

  /** With no skipped, failure or properties element nothing is recorded, and the field
      takes its default, "pass", unless the input already carried a "result" string. */
  lemma DefaultPass(value: map<string, Node>)
    requires Get(value, "skipped") == Null && Get(value, "failure") == Null && Get(value, "properties") == Null
    ensures Classify(value) == O.Ok(O.None)
    ensures "result" !in value ==> FinalVerdict(value) == O.Ok(Pass)
  {
  }

  /** A recorded verdict is the one the field ends up with. */
  lemma RecordedVerdict(value: map<string, Node>)
    requires Classify(value).Ok? && Classify(value).value.Some?
    ensures FinalVerdict(value) == O.Ok(Classify(value).value.value)
  {
    VerdictRoundTrip(Classify(value).value.value);
  }

  /** The validator never records "error": the field is error only when the input dict
      already said so and no branch overwrote it. */
  lemma NeverRecordsError(value: map<string, Node>)
    ensures FinalVerdict(value) == O.Ok(Error) ==>
      Classify(value) == O.Ok(O.None) && "result" in value && value["result"] == Text("error")
  {
    if Classify(value).Ok? && Classify(value).value.Some? {
      RecordedVerdict(value);
    }
  }
}
