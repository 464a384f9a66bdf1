/**
 * The edit list the driver applies to a slide (app.py:119-129), run on a
 * slide with one ambient light and three point lights, each holding one
 * color node and one ratio node as direct children; and a light whose color
 * node is nested inside a wrapper element.
 */
module Driver {
  import opened XmlTree
  import opened Lights

  /** A light whose only children are a color leaf and then a ratio leaf tagged `ratioTag`. */
  predicate LightShape(light: Element, tag: string, ratioTag: string) {
    light.Valid() && light.tag == tag && |light.children| == 2 &&
    light.children[0].tag == ColorTag && light.children[0].children == [] &&
    light.children[1].tag == ratioTag && light.children[1].children == []
  }

  /** A new light of that shape, with zero color and zero brightness. */
  method NewLight(tag: string, ratioTag: string) returns (light: Element, color: Element, ratio: Element)
    ensures LightShape(light, tag, ratioTag) && light.children == [color, ratio]
    ensures color.attrs == Color(0, 0, 0) && ratio.attrs == Ratio(0, RatioDenominator)
    ensures fresh(light) && fresh(color) && fresh(ratio)
  {
    color := new Element(ColorTag, Color(0, 0, 0), []);
    ratio := new Element(ratioTag, Ratio(0, RatioDenominator), []);
    assert ValidForest([ratio][1..]);
    assert ValidForest([color, ratio][1..]);
    light := new Element(tag, map[], [color, ratio]);
  }

  /** One step of the search: a first tree with no match below it contributes at most itself. */
  lemma ListInStep(cs: seq<Element>, tag: string)
    requires ValidForest(cs) && cs != [] && ListIn(cs[0].children, tag) == []
    ensures ListIn(cs, tag) == (if cs[0].tag == tag then [cs[0]] else []) + ListIn(cs[1..], tag)
  {
  }

  /** In such a light the color node and the ratio node are the ones found. */
  lemma LightSubNodes(light: Element, tag: string, ratioTag: string, otherTag: string)
    requires LightShape(light, tag, ratioTag) && ratioTag != ColorTag
    requires otherTag != ColorTag && otherTag != ratioTag
    ensures Find(light, ColorTag) == Some(light.children[0])
    ensures Find(light, ratioTag) == Some(light.children[1])
    ensures ListIn(light.children, otherTag) == []
  {
    var cs := light.children;
    assert cs[1..][1..] == [] && cs[1..][0] == cs[1];
    assert FindIn(cs[0].children, ratioTag) == None;
    assert FindIn(cs[1..], ratioTag) == Some(cs[1]);
    assert FindIn(cs, ratioTag) == FindIn(cs[1..], ratioTag);
  }

  /** The slide's lights, found by tag, are the ambient light and the three point lights. */
  lemma SlideLights(root: Element, ambient: Element, pt1: Element, pt2: Element, pt3: Element)
    requires root.Valid() && root.children == [ambient, pt1, pt2, pt3]
    requires LightShape(ambient, AmbientLightTag, IlluminanceTag)
    requires LightShape(pt1, PointLightTag, IntensityTag)
    requires LightShape(pt2, PointLightTag, IntensityTag)
    requires LightShape(pt3, PointLightTag, IntensityTag)
    ensures ListElements(root, PointLightTag) == [pt1, pt2, pt3]
    ensures ListElements(root, AmbientLightTag) == [ambient]
  {
    SlideLightsWithTag(root, ambient, pt1, pt2, pt3, PointLightTag);
    SlideLightsWithTag(root, ambient, pt1, pt2, pt3, AmbientLightTag);
  }

  lemma SlideLightsWithTag(root: Element, ambient: Element, pt1: Element, pt2: Element, pt3: Element, tag: string)
    requires root.Valid() && root.children == [ambient, pt1, pt2, pt3]
    requires LightShape(ambient, AmbientLightTag, IlluminanceTag)
    requires LightShape(pt1, PointLightTag, IntensityTag)
    requires LightShape(pt2, PointLightTag, IntensityTag)
    requires LightShape(pt3, PointLightTag, IntensityTag)
    requires tag == PointLightTag || tag == AmbientLightTag
    ensures ListElements(root, tag) ==
      (if ambient.tag == tag then [ambient] else []) + (if pt1.tag == tag then [pt1, pt2, pt3] else [])
  {
    var cs := root.children;
    LightSubNodes(ambient, AmbientLightTag, IlluminanceTag, tag);
    assert cs[1..] == [pt1, pt2, pt3];
    PointLightsWithTag(cs[1..], tag);
    ListInStep(cs, tag);
  }

  /** The three point lights, searched by a light tag, contribute all three or none. */
  lemma PointLightsWithTag(cs: seq<Element>, tag: string)
    requires ValidForest(cs) && |cs| == 3
    requires forall i | 0 <= i < 3 :: LightShape(cs[i], PointLightTag, IntensityTag)
    requires tag == PointLightTag || tag == AmbientLightTag
    ensures ListIn(cs, tag) == if tag == PointLightTag then cs else []
  {
    LightSubNodes(cs[0], PointLightTag, IntensityTag, tag);
    LightSubNodes(cs[1], PointLightTag, IntensityTag, tag);
    LightSubNodes(cs[2], PointLightTag, IntensityTag, tag);
    var c2, c3 := cs[1..], cs[1..][1..];
    assert c2 == [cs[1], cs[2]] && c3 == [cs[2]] && c3[1..] == [];
    ListInStep(c3, tag);
    ListInStep(c2, tag);
    ListInStep(cs, tag);
  }

  function Color(r: int, g: int, b: int): Attributes {
    map["r" := Num(r), "g" := Num(g), "b" := Num(b)]
  }

  function Ratio(n: int, d: int): Attributes {
    map["n" := Num(n), "d" := Num(d)]
  }

  lemma ColorOverwrite(r0: int, g0: int, b0: int, r: int, g: int, b: int)
    ensures WithRgb(Color(r0, g0, b0), r, g, b) == Color(r * 1000, g * 1000, b * 1000)
  {
  }

  lemma RatioOverwrite(n0: int, d0: int, percentage: int)
    ensures WithRatio(Ratio(n0, d0), percentage) == Ratio(percentage * 1000000, 1000000)
  {
  }

  /** The color and ratio edits of the `k`-th point light land on its two nodes. */
  lemma PointLightTargets(root: Element, ambient: Element, pt1: Element, pt2: Element, pt3: Element, k: int)
    requires root.Valid() && root.children == [ambient, pt1, pt2, pt3]
    requires LightShape(ambient, AmbientLightTag, IlluminanceTag)
    requires LightShape(pt1, PointLightTag, IntensityTag)
    requires LightShape(pt2, PointLightTag, IntensityTag)
    requires LightShape(pt3, PointLightTag, IntensityTag)
    requires 1 <= k <= 3
    ensures var light := [pt1, pt2, pt3][k - 1];
      Locate(root, PointLightTag, k, ColorTag) == Found(light.children[0]) &&
      Locate(root, PointLightTag, k, IntensityTag) == Found(light.children[1])
  {
    SlideLights(root, ambient, pt1, pt2, pt3);
    var light := [pt1, pt2, pt3][k - 1];
    LightSubNodes(light, PointLightTag, IntensityTag, AmbientLightTag);
  }

  /** The ambient light's color and illuminance edits land on its two nodes. */
  lemma AmbientLightTargets(root: Element, ambient: Element, pt1: Element, pt2: Element, pt3: Element)
    requires root.Valid() && root.children == [ambient, pt1, pt2, pt3]
    requires LightShape(ambient, AmbientLightTag, IlluminanceTag)
    requires LightShape(pt1, PointLightTag, IntensityTag)
    requires LightShape(pt2, PointLightTag, IntensityTag)
    requires LightShape(pt3, PointLightTag, IntensityTag)
    ensures Locate(root, AmbientLightTag, 1, ColorTag) == Found(ambient.children[0])
    ensures Locate(root, AmbientLightTag, 1, IlluminanceTag) == Found(ambient.children[1])
    ensures Locate(root, AmbientLightTag, 2, ColorTag) == ElementMissing
  {
    SlideLights(root, ambient, pt1, pt2, pt3);
    LightSubNodes(ambient, AmbientLightTag, IlluminanceTag, PointLightTag);
  }

  /**
   * A slide holding one ambient light, then three point lights, all at zero.
   * `lights` lists them as point lights 1 to 3 and then the ambient light;
   * `colors` and `ratios` are their color and ratio nodes, all distinct.
   */
  method NewSlide() returns (root: Element, lights: seq<Element>, colors: seq<Element>, ratios: seq<Element>)
    ensures |lights| == |colors| == |ratios| == 4
    ensures root.Valid() && root.children == [lights[3], lights[0], lights[1], lights[2]]
    ensures LightShape(lights[3], AmbientLightTag, IlluminanceTag)
    ensures LightShape(lights[0], PointLightTag, IntensityTag)
    ensures LightShape(lights[1], PointLightTag, IntensityTag)
    ensures LightShape(lights[2], PointLightTag, IntensityTag)
    ensures forall i | 0 <= i < 4 :: lights[i].children == [colors[i], ratios[i]]
    ensures forall i | 0 <= i < 4 :: colors[i].attrs == Color(0, 0, 0) && ratios[i].attrs == Ratio(0, RatioDenominator)
    ensures forall i, j | 0 <= i < 4 && 0 <= j < 4 :: colors[i] != ratios[j]
    ensures forall i, j | 0 <= i < j < 4 :: colors[i] != colors[j] && ratios[i] != ratios[j]
    ensures forall i | 0 <= i < 4 :: fresh(colors[i]) && fresh(ratios[i])
  {
    var pt1, c1, r1 := NewLight(PointLightTag, IntensityTag);
    var pt2, c2, r2 := NewLight(PointLightTag, IntensityTag);
    var pt3, c3, r3 := NewLight(PointLightTag, IntensityTag);
    var ambient, c4, r4 := NewLight(AmbientLightTag, IlluminanceTag);
    lights, colors, ratios := [pt1, pt2, pt3, ambient], [c1, c2, c3, c4], [r1, r2, r3, r4];
    var cs := [ambient, pt1, pt2, pt3];
    assert ValidForest(cs[1..][1..][1..][1..]);
    assert ValidForest(cs[1..][1..][1..]);
    assert ValidForest(cs[1..][1..]);
    assert ValidForest(cs[1..]);
    root := new Element("p:sld", map[], cs);
  }

  /**
   * The first color edit and the first brightness edit of the driver
   * (app.py:119 and app.py:123): point light 1 gets color (255, 0, 0) and
   * brightness 75, and no other light's nodes change.
   */
  method EditFirstPointLight() returns (outcomes: seq<Outcome>, color: Attributes, ratio: Attributes,
                                       others: seq<Attributes>)
    ensures outcomes == [Updated, Updated]
    ensures color == Color(255000, 0, 0) && ratio == Ratio(75000000, 1000000)
    ensures others == [Color(0, 0, 0), Color(0, 0, 0), Color(0, 0, 0),
                       Ratio(0, 1000000), Ratio(0, 1000000), Ratio(0, 1000000)]
  {
    var root, lights, colors, ratios := NewSlide();
    PointLightTargets(root, lights[3], lights[0], lights[1], lights[2], 1);
    ColorOverwrite(0, 0, 0, 255, 0, 0);
    RatioOverwrite(0, 1000000, 75);
    assert colors[0] != colors[1] && colors[0] != colors[2] && colors[0] != colors[3];
    assert ratios[0] != ratios[1] && ratios[0] != ratios[2] && ratios[0] != ratios[3];
    var o1 := UpdateRgbValues(root, PointLightTag, 1, 255, 0, 0);
    var o2 := UpdateIntensity(root, PointLightTag, 1, 75);
    outcomes := [o1, o2];
    color, ratio := colors[0].attrs, ratios[0].attrs;
    others := [colors[1].attrs, colors[2].attrs, colors[3].attrs,
               ratios[1].attrs, ratios[2].attrs, ratios[3].attrs];
  }

  /**
   * The ambient light edits of the driver (app.py:128-129): color (5, 5, 5)
   * and brightness 10 land on the ambient light only.
   */
  method EditAmbientLight() returns (outcomes: seq<Outcome>, color: Attributes, ratio: Attributes,
                                    others: seq<Attributes>)
    ensures outcomes == [Updated, Updated]
    ensures color == Color(5000, 5000, 5000) && ratio == Ratio(10000000, 1000000)
    ensures others == [Color(0, 0, 0), Color(0, 0, 0), Color(0, 0, 0),
                       Ratio(0, 1000000), Ratio(0, 1000000), Ratio(0, 1000000)]
  {
    var root, lights, colors, ratios := NewSlide();
    AmbientLightTargets(root, lights[3], lights[0], lights[1], lights[2]);
    ColorOverwrite(0, 0, 0, 5, 5, 5);
    RatioOverwrite(0, 1000000, 10);
    assert colors[3] != colors[0] && colors[3] != colors[1] && colors[3] != colors[2];
    assert ratios[3] != ratios[0] && ratios[3] != ratios[1] && ratios[3] != ratios[2];
    var o1 := UpdateAmbientLightRgb(root, 1, 5, 5, 5);
    var o2 := UpdateAmbientLightIntensity(root, 1, 10);
    outcomes := [o1, o2];
    color, ratio := colors[3].attrs, ratios[3].attrs;
    others := [colors[0].attrs, colors[1].attrs, colors[2].attrs,
               ratios[0].attrs, ratios[1].attrs, ratios[2].attrs];
  }

  /**
   * Edits of a light that is not there (point light 5 and 0 of three,
   * ambient light 2 of one) are reported and write nothing.
   */
  method EditMissingLights() returns (outcomes: seq<Outcome>, colors: seq<Attributes>, ratios: seq<Attributes>)
    ensures outcomes == [ElementNotFound, ElementNotFound, ElementNotFound]
    ensures colors == [Color(0, 0, 0), Color(0, 0, 0), Color(0, 0, 0), Color(0, 0, 0)]
    ensures ratios == [Ratio(0, 1000000), Ratio(0, 1000000), Ratio(0, 1000000), Ratio(0, 1000000)]
  {
    var root, lights, cs, rs := NewSlide();
    SlideLights(root, lights[3], lights[0], lights[1], lights[2]);
    AmbientLightTargets(root, lights[3], lights[0], lights[1], lights[2]);
    var o1 := UpdateRgbValues(root, PointLightTag, 5, 0, 255, 0);
    var o2 := UpdateIntensity(root, PointLightTag, 0, 50);
    var o3 := UpdateAmbientLightRgb(root, 2, 1, 2, 3);
    outcomes := [o1, o2, o3];
    colors := [cs[0].attrs, cs[1].attrs, cs[2].attrs, cs[3].attrs];
    ratios := [rs[0].attrs, rs[1].attrs, rs[2].attrs, rs[3].attrs];
  }

  /** Below an element whose only child is a leaf, only that leaf's tag is found. */
  lemma SingleLeafBelow(e: Element, tag: string)
    requires e.Valid() && |e.children| == 1 && e.children[0].children == []
    ensures Find(e, tag) == if e.children[0].tag == tag then Some(e.children[0]) else None
    ensures ListIn(e.children, tag) == if e.children[0].tag == tag then [e.children[0]] else []
  {
    var leaf := e.children[0];
    assert e.children[1..] == [];
    assert FindIn(leaf.children, tag) == None;
    assert FindIn(e.children[1..], tag) == None;
  }

  /**
   * A point light holding an intensity node but no color node: the color
   * edit reports the missing sub-node and leaves the intensity node as it
   * was, while the brightness edit still lands on the intensity node.
   */
  method EditLightWithoutColor() returns (outcomes: seq<Outcome>, afterColor: Attributes, afterRatio: Attributes)
    ensures outcomes == [SubNodeNotFound, Updated]
    ensures afterColor == Ratio(0, 1000000)
    ensures afterRatio == Ratio(40000000, 1000000)
  {
    var intensity := new Element(IntensityTag, Ratio(0, RatioDenominator), []);
    assert ValidForest([intensity][1..]);
    var light := new Element(PointLightTag, map[], [intensity]);
    assert ValidForest([light][1..]);
    var root := new Element("p:sld", map[], [light]);
    SingleLeafBelow(light, PointLightTag);
    SingleLeafBelow(light, ColorTag);
    SingleLeafBelow(light, IntensityTag);
    assert root.children[1..] == [];
    assert ListElements(root, PointLightTag) == [light];
    var o1 := UpdateRgbValues(root, PointLightTag, 1, 255, 0, 0);
    afterColor := intensity.attrs;
    RatioOverwrite(0, 1000000, 40);
    var o2 := UpdateIntensity(root, PointLightTag, 1, 40);
    outcomes := [o1, o2];
    afterRatio := intensity.attrs;
  }

  /**
   * In a point light whose children are a wrapper holding a color leaf, a
   * second color leaf and an intensity leaf, the color search reaches into
   * the wrapper; the slide lists that one point light.
   */
  lemma NestedLightLookup(root: Element, light: Element, inner: Element, extra: Element, intensity: Element)
    requires root.Valid() && root.children == [light] && light.tag == PointLightTag
    requires |light.children| == 3 && light.children[1] == extra && light.children[2] == intensity
    requires light.children[0].tag != PointLightTag && light.children[0].tag != ColorTag
    requires light.children[0].children == [inner]
    requires inner.tag == ColorTag && inner.children == []
    requires extra.tag == ColorTag && extra.children == []
    requires intensity.tag == IntensityTag && intensity.children == []
    ensures ListElements(root, PointLightTag) == [light]
    ensures Find(light, ColorTag) == Some(inner)
  {
    var cs := light.children;
    var wrapper := cs[0];
    assert ValidForest(root.children) && ValidForest(cs);
    assert wrapper.Valid();
    assert ValidForest(cs[1..]) && ValidForest(cs[1..][1..]);
    assert cs[1..] == [extra, intensity] && cs[1..][1..] == [intensity] && cs[1..][1..][1..] == [];
    assert FindIn(wrapper.children, ColorTag) == Some(inner);
    SingleLeafBelow(wrapper, PointLightTag);
    ListInStep(cs[1..][1..], PointLightTag);
    ListInStep(cs[1..], PointLightTag);
    ListInStep(cs, PointLightTag);
    assert root.children[1..] == [];
    ListInStep(root.children, PointLightTag);
  }

  /**
   * A point light whose color node sits inside a wrapper element and is
   * followed by a second color node: only the first color node in document
   * order is written.
   */
  method EditNestedColor() returns (outcome: Outcome, first: Attributes, second: Attributes)
    ensures outcome == Updated
    ensures first == Color(255000, 0, 0) && second == Color(0, 0, 0)
  {
    var inner := new Element(ColorTag, Color(0, 0, 0), []);
    assert ValidForest([inner][1..]);
    var wrapper := new Element("am3d:clr", map[], [inner]);
    var extra := new Element(ColorTag, Color(0, 0, 0), []);
    var intensity := new Element(IntensityTag, Ratio(0, RatioDenominator), []);
    var cs := [wrapper, extra, intensity];
    assert ValidForest(cs[1..][1..]);
    assert ValidForest(cs[1..]);
    var light := new Element(PointLightTag, map[], cs);
    assert ValidForest([light][1..]);
    var root := new Element("p:sld", map[], [light]);
    NestedLightLookup(root, light, inner, extra, intensity);
    ColorOverwrite(0, 0, 0, 255, 0, 0);
    outcome := UpdateRgbValues(root, PointLightTag, 1, 255, 0, 0);
    first, second := inner.attrs, extra.attrs;
  }
}
