/**
 * The attribute updaters for the 3-D lighting elements of a slide: the
 * color of a light (its first `a:scrgbClr` descendant) and its brightness
 * (the ratio `n/d` of its first `am3d:intensity`, or for an ambient light
 * `am3d:illuminance`, descendant). Each update finds the position-th
 * element with the given tag, then the sub-node, and overwrites that one
 * node's attributes in place; a missing element or sub-node is reported
 * and nothing is written.
 */
module Lights {
  import opened XmlTree

  const AmbientLightTag := "am3d:ambientLight"
  const PointLightTag := "am3d:ptLight"
  const ColorTag := "a:scrgbClr"
  const IntensityTag := "am3d:intensity"
  const IlluminanceTag := "am3d:illuminance"

  /** A color channel is stored multiplied by this. */
  const ColorScale := 1000
  /** The fixed denominator `d` of a brightness ratio. */
  const RatioDenominator := 1000000

  /** What an update reports (the message it prints). */
  datatype Outcome = Updated | ElementNotFound | SubNodeNotFound

  /** Where an update writes: nowhere, for either reason, or one sub-node. */
  datatype Located = ElementMissing | SubNodeMissing | Found(target: Element)

  /**
   * The node an update of the `position`-th (1-based) `elementTag` element
   * writes to: the first `subTag` descendant of that element.
   */
  function Locate(root: Element, elementTag: string, position: int, subTag: string): (loc: Located)
    requires root.Valid()
    ensures loc.Found? ==> loc.target.Valid() && loc.target.tag == subTag
  {
    var elements := ListElements(root, elementTag);
    if 0 < position <= |elements| then
      match Find(elements[position - 1], subTag)
      case Some(sub) => Found(sub)
      case None => SubNodeMissing
    else ElementMissing
  }

  /**
   * The three outcomes of a lookup: the position is out of range (0, negative
   * or past the count), the element there has no `subTag` descendant, or the
   * first such descendant is the node written, which lies inside the tree.
   */
  lemma LocateSpec(root: Element, elementTag: string, position: int, subTag: string)
    requires root.Valid()
    ensures var loc := Locate(root, elementTag, position, subTag);
      (loc.ElementMissing? <==> !(0 < position <= |ListElements(root, elementTag)|)) &&
      (loc.SubNodeMissing? <==>
        0 < position <= |ListElements(root, elementTag)| &&
        forall x <- Descendants(ListElements(root, elementTag)[position - 1]) :: x.tag != subTag) &&
      (loc.Found? ==>
        0 < position <= |ListElements(root, elementTag)| &&
        loc.target == Find(ListElements(root, elementTag)[position - 1], subTag).value &&
        loc.target in Descendants(ListElements(root, elementTag)[position - 1]) &&
        loc.target.tag == subTag && loc.target in Descendants(root))
  {
    var elements := ListElements(root, elementTag);
    ListElementsSpec(root, elementTag);
    if 0 < position <= |elements| {
      var elem := elements[position - 1];
      FindSpec(elem, subTag);
      if Find(elem, subTag).Some? {
        DescendantsTransitive(root, elem, Find(elem, subTag).value);
      }
    }
  }

  function OutcomeOf(loc: Located): Outcome {
    match loc
    case ElementMissing => ElementNotFound
    case SubNodeMissing => SubNodeNotFound
    case Found(_) => Updated
  }

  /** The nodes an update may write: the located sub-node, or none. */
  function Targeted(loc: Located): set<Element> {
    if loc.Found? then {loc.target} else {}
  }

  /** The attributes of a color node after `r`, `g` and `b` are set. */
  function WithRgb(attrs: Attributes, r: int, g: int, b: int): (m: Attributes)
    ensures m.Keys == attrs.Keys + {"r", "g", "b"}
    ensures m["r"] == Num(r * ColorScale) && m["g"] == Num(g * ColorScale) && m["b"] == Num(b * ColorScale)
    ensures forall k <- attrs.Keys :: k != "r" && k != "g" && k != "b" ==> m[k] == attrs[k]
  {
    attrs["r" := Num(r * ColorScale)]["g" := Num(g * ColorScale)]["b" := Num(b * ColorScale)]
  }

  /** The attributes of a ratio node after the brightness is set to `percentage`. */
  function WithRatio(attrs: Attributes, percentage: int): (m: Attributes)
    ensures m.Keys == attrs.Keys + {"n", "d"}
    ensures m["n"] == Num(percentage * RatioDenominator) && m["d"] == Num(RatioDenominator)
    ensures forall k <- attrs.Keys :: k != "n" && k != "d" ==> m[k] == attrs[k]
  {
    attrs["n" := Num(percentage * RatioDenominator)]["d" := Num(RatioDenominator)]
  }

  /** The channels a color node encodes, read back from its attributes. */
  function ColorOf(attrs: Attributes): Option<(int, int, int)> {
    if "r" in attrs && "g" in attrs && "b" in attrs &&
       attrs["r"].Num? && attrs["g"].Num? && attrs["b"].Num?
    then Some((attrs["r"].n / ColorScale, attrs["g"].n / ColorScale, attrs["b"].n / ColorScale))
    else None
  }

  /** The brightness a ratio node encodes, `n / d`, read back from its attributes. */
  function BrightnessOf(attrs: Attributes): Option<int> {
    if "n" in attrs && "d" in attrs && attrs["n"].Num? && attrs["d"].Num? && attrs["d"].n != 0
    then Some(attrs["n"].n / attrs["d"].n)
    else None
  }

  /** Writing a color and reading it back gives the channels written. */
  lemma ColorRoundTrip(attrs: Attributes, r: int, g: int, b: int)
    ensures ColorOf(WithRgb(attrs, r, g, b)) == Some((r, g, b))
  {
  }

  /** The stored ratio `n/d` is exactly the percentage written. */
  lemma BrightnessRoundTrip(attrs: Attributes, percentage: int)
    ensures BrightnessOf(WithRatio(attrs, percentage)) == Some(percentage)
  {
  }

  /** Attribute writes are overwrites: repeating a color write changes nothing more. */
  lemma WithRgbIdempotent(attrs: Attributes, r: int, g: int, b: int)
    ensures WithRgb(WithRgb(attrs, r, g, b), r, g, b) == WithRgb(attrs, r, g, b)
  {
  }

  /** Repeating a brightness write changes nothing more. */
  lemma WithRatioIdempotent(attrs: Attributes, percentage: int)
    ensures WithRatio(WithRatio(attrs, percentage), percentage) == WithRatio(attrs, percentage)
  {
  }

  /**
   * `update_rgb_values`: sets `r`, `g`, `b` of the first `a:scrgbClr`
   * descendant of the `position`-th `elementTag` element to the channels
   * times 1000. Only that node is written, and of it only those three
   * attributes; every other element keeps its attributes.
   */
  method UpdateRgbValues(root: Element, elementTag: string, position: int, r: int, g: int, b: int)
    returns (outcome: Outcome)
    requires root.Valid()
    modifies Targeted(Locate(root, elementTag, position, ColorTag))
    ensures outcome == OutcomeOf(Locate(root, elementTag, position, ColorTag))
    ensures var loc := Locate(root, elementTag, position, ColorTag);
      loc.Found? ==> loc.target.attrs == WithRgb(old(loc.target.attrs), r, g, b)
    ensures root.attrs == old(root.attrs)
    ensures forall x: Element | old(allocated(x)) && x !in Targeted(Locate(root, elementTag, position, ColorTag)) ::
      x.attrs == old(x.attrs)
  {
    ghost var loc := Locate(root, elementTag, position, ColorTag);
    LocateSpec(root, elementTag, position, ColorTag);
    var elements := ListElements(root, elementTag);
    if 0 < position <= |elements| {
      var elem := elements[position - 1];
      var scrgbClr := Find(elem, ColorTag);
      if scrgbClr.Some? {
        var node := scrgbClr.value;
        assert loc == Found(node);
        node.attrs := node.attrs["r" := Num(r * ColorScale)];
        node.attrs := node.attrs["g" := Num(g * ColorScale)];
        node.attrs := node.attrs["b" := Num(b * ColorScale)];
        assert node.attrs == WithRgb(old(node.attrs), r, g, b);
        outcome := Updated;
      } else {
        assert loc == SubNodeMissing;
        outcome := SubNodeNotFound;
      }
    } else {
      assert loc == ElementMissing;
      outcome := ElementNotFound;
    }
  }

  /**
   * `update_intensity`: sets the first `am3d:intensity` descendant of the
   * `position`-th `elementTag` element to `n = percentage * 1000000`,
   * `d = 1000000`; nothing else is written.
   */
  method UpdateIntensity(root: Element, elementTag: string, position: int, percentage: int)
    returns (outcome: Outcome)
    requires root.Valid()
    modifies Targeted(Locate(root, elementTag, position, IntensityTag))
    ensures outcome == OutcomeOf(Locate(root, elementTag, position, IntensityTag))
    ensures var loc := Locate(root, elementTag, position, IntensityTag);
      loc.Found? ==> loc.target.attrs == WithRatio(old(loc.target.attrs), percentage)
    ensures root.attrs == old(root.attrs)
    ensures forall x: Element | old(allocated(x)) && x !in Targeted(Locate(root, elementTag, position, IntensityTag)) ::
      x.attrs == old(x.attrs)
  {
    ghost var loc := Locate(root, elementTag, position, IntensityTag);
    LocateSpec(root, elementTag, position, IntensityTag);
    var elements := ListElements(root, elementTag);
    if 0 < position <= |elements| {
      var elem := elements[position - 1];
      var intensity := Find(elem, IntensityTag);
      if intensity.Some? {
        var node := intensity.value;
        assert loc == Found(node);
        var n := percentage * RatioDenominator;
        var d := RatioDenominator;
        node.attrs := node.attrs["n" := Num(n)];
        node.attrs := node.attrs["d" := Num(d)];
        outcome := Updated;
      } else {
        assert loc == SubNodeMissing;
        outcome := SubNodeNotFound;
      }
    } else {
      assert loc == ElementMissing;
      outcome := ElementNotFound;
    }
  }

  /** `update_ambient_light_rgb`: the color update with the tag fixed to `am3d:ambientLight`. */
  method UpdateAmbientLightRgb(root: Element, position: int, r: int, g: int, b: int)
    returns (outcome: Outcome)
    requires root.Valid()
    modifies Targeted(Locate(root, AmbientLightTag, position, ColorTag))
    ensures outcome == OutcomeOf(Locate(root, AmbientLightTag, position, ColorTag))
    ensures var loc := Locate(root, AmbientLightTag, position, ColorTag);
      loc.Found? ==> loc.target.attrs == WithRgb(old(loc.target.attrs), r, g, b)
    ensures root.attrs == old(root.attrs)
    ensures forall x: Element | old(allocated(x)) && x !in Targeted(Locate(root, AmbientLightTag, position, ColorTag)) ::
      x.attrs == old(x.attrs)
  {
    LocateSpec(root, AmbientLightTag, position, ColorTag);
    outcome := UpdateRgbValues(root, AmbientLightTag, position, r, g, b);
  }

  /**
   * `update_ambient_light_intensity`: the brightness update for the
   * `position`-th `am3d:ambientLight`, whose ratio node is `am3d:illuminance`.
   */
  method UpdateAmbientLightIntensity(root: Element, position: int, percentage: int)
    returns (outcome: Outcome)
    requires root.Valid()
    modifies Targeted(Locate(root, AmbientLightTag, position, IlluminanceTag))
    ensures outcome == OutcomeOf(Locate(root, AmbientLightTag, position, IlluminanceTag))
    ensures var loc := Locate(root, AmbientLightTag, position, IlluminanceTag);
      loc.Found? ==> loc.target.attrs == WithRatio(old(loc.target.attrs), percentage)
    ensures root.attrs == old(root.attrs)
    ensures forall x: Element | old(allocated(x)) && x !in Targeted(Locate(root, AmbientLightTag, position, IlluminanceTag)) ::
      x.attrs == old(x.attrs)
  {
    ghost var loc := Locate(root, AmbientLightTag, position, IlluminanceTag);
    LocateSpec(root, AmbientLightTag, position, IlluminanceTag);
    var elements := ListElements(root, AmbientLightTag);
    if 0 < position <= |elements| {
      var elem := elements[position - 1];
      var illuminance := Find(elem, IlluminanceTag);
      if illuminance.Some? {
        var node := illuminance.value;
        assert loc == Found(node);
        var n := percentage * RatioDenominator;
        var d := RatioDenominator;
        node.attrs := node.attrs["n" := Num(n)];
        node.attrs := node.attrs["d" := Num(d)];
        outcome := Updated;
      } else {
        assert loc == SubNodeMissing;
        outcome := SubNodeNotFound;
      }
    } else {
      assert loc == ElementMissing;
      outcome := ElementNotFound;
    }
  }

  /**
   * Idempotence of the color update on the tree: a second identical call
   * reports the same outcome and leaves the tree as the first call left it.
   */
  method RepeatRgbValues(root: Element, elementTag: string, position: int, r: int, g: int, b: int)
    returns (first: Outcome, second: Outcome)
    requires root.Valid()
    modifies Targeted(Locate(root, elementTag, position, ColorTag))
    ensures first == second == OutcomeOf(Locate(root, elementTag, position, ColorTag))
    ensures var loc := Locate(root, elementTag, position, ColorTag);
      loc.Found? ==> loc.target.attrs == WithRgb(old(loc.target.attrs), r, g, b)
  {
    ghost var loc := Locate(root, elementTag, position, ColorTag);
    first := UpdateRgbValues(root, elementTag, position, r, g, b);
    second := UpdateRgbValues(root, elementTag, position, r, g, b);
    if loc.Found? {
      WithRgbIdempotent(old(loc.target.attrs), r, g, b);
    }
  }

  /** Idempotence of the brightness update on the tree. */
  method RepeatIntensity(root: Element, elementTag: string, position: int, percentage: int)
    returns (first: Outcome, second: Outcome)
    requires root.Valid()
    modifies Targeted(Locate(root, elementTag, position, IntensityTag))
    ensures first == second == OutcomeOf(Locate(root, elementTag, position, IntensityTag))
    ensures var loc := Locate(root, elementTag, position, IntensityTag);
      loc.Found? ==> loc.target.attrs == WithRatio(old(loc.target.attrs), percentage)
  {
    ghost var loc := Locate(root, elementTag, position, IntensityTag);
    first := UpdateIntensity(root, elementTag, position, percentage);
    second := UpdateIntensity(root, elementTag, position, percentage);
    if loc.Found? {
      WithRatioIdempotent(old(loc.target.attrs), percentage);
    }
  }

  /** Idempotence of the ambient light brightness update on the tree. */
  method RepeatAmbientLightIntensity(root: Element, position: int, percentage: int)
    returns (first: Outcome, second: Outcome)
    requires root.Valid()
    modifies Targeted(Locate(root, AmbientLightTag, position, IlluminanceTag))
    ensures first == second == OutcomeOf(Locate(root, AmbientLightTag, position, IlluminanceTag))
    ensures var loc := Locate(root, AmbientLightTag, position, IlluminanceTag);
      loc.Found? ==> loc.target.attrs == WithRatio(old(loc.target.attrs), percentage)
  {
    ghost var loc := Locate(root, AmbientLightTag, position, IlluminanceTag);
    first := UpdateAmbientLightIntensity(root, position, percentage);
    second := UpdateAmbientLightIntensity(root, position, percentage);
    if loc.Found? {
      WithRatioIdempotent(old(loc.target.attrs), percentage);
    }
  }
}
