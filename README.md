# 3-D light editor for PowerPoint slides — Dafny model

The program unpacks a `.pptx` file and parses the XML of one slide. It then
edits the lights of the slide's embedded 3-D model and writes the slide back.
Each edit addresses a light by tag and 1-based position: the `position`-th
`am3d:ptLight` or `am3d:ambientLight` element, in document order. The edit
rewrites the attributes of one node below that light:

- a color edit sets `r`, `g` and `b` of the light's first `a:scrgbClr`
  descendant to the channel values times 1000;
- a brightness edit sets `n` to the percentage times 1 000 000 and `d` to
  1 000 000 on the light's first `am3d:intensity` descendant, or on its
  first `am3d:illuminance` descendant for an ambient light.

If the position is out of range, or the light has no such node, the edit
reports it and writes nothing.

The model is in three modules:

- `XmlTree` (`xml_tree.dfy`) is the parsed document. It is a class
  `Element` with a constant tag, constant children and mutable attributes.
  Beside it sit the two descendant queries the updaters use, as functions:
  `findall('.//tag')` as `ListElements` and `find('.//tag')` as `Find`.
  Lemmas relate both to a reference definition: the list of all proper
  descendants in document order (`Descendants`), filtered by tag
  (`WithTag`).
- `Lights` (`lights.dfy`) holds the four updaters, as methods that write
  in place. `Locate` is the lookup they share. Each method states:
  - what it reports;
  - the new attributes of the one node it writes;
  - that every other element keeps its attributes.

  Round-trip and idempotence lemmas sit beside them.
- `Driver` (`driver.dfy`) builds a slide with three point lights and one
  ambient light, each holding a color node and a ratio node as direct
  children. On it, the module replays the driver's edits and some edits
  that miss. A separate slide has a light whose color node is nested inside
  a wrapper element.

## Model

| member | source | states |
|---|---|---|
| XmlTree.ListElements | app.py:11-16 | `list_elements` only reads the tree and returns well-formed elements; what it returns is stated by `XmlTree.ListElementsSpec` |
| XmlTree.ListIn | app.py:15 | the `.//tag` search over a forest, element by element in document order, returns only elements carrying the tag; `XmlTree.ListInIsWithTag` states that it returns all of them in order |
| XmlTree.ListElementsSpec | app.py:11-16 | `list_elements` returns exactly the proper descendants of the root that carry the tag, in document order; every such descendant is in the result and the root itself never is |
| XmlTree.ListInIsWithTag | app.py:15 | the element-by-element descendant search over a forest equals the pre-order listing of that forest filtered by tag |
| XmlTree.WithTag | app.py:15 | the tag filter keeps exactly the elements carrying the tag, and never lengthens its input |
| XmlTree.WithTagAppend | app.py:15 | filtering by tag distributes over concatenation, so a search may proceed subtree by subtree |
| XmlTree.Preorder | app.py:15 | every element listed below a well-formed forest is itself well-formed and no larger than the forest |
| XmlTree.FindIn | app.py:23 | the early-exit `find('.//tag')` search returns, when it finds anything, an element carrying the tag; `XmlTree.FindInIsFirst` states that it is the first match |
| XmlTree.Find | app.py:23 | `elem.find('.//tag')` (also app.py:41 and 65) over the descendants of `elem` returns, when present, a well-formed element carrying the tag; its full meaning is stated by `XmlTree.FindSpec` |
| XmlTree.FindInIsFirst | app.py:23 | the early-exit `find` search yields nothing exactly when the full search is empty, and otherwise the full search's first result |
| XmlTree.FindSpec | app.py:23 | `elem.find('.//tag')` is absent exactly when no proper descendant of `elem` has the tag; otherwise it is the first element `findall` returns, a descendant carrying the tag |
| XmlTree.WithTagHead | app.py:41 | the first tag match of a sequence is an element of it that no earlier element with the same tag precedes |
| XmlTree.FindIsFirstInDocumentOrder | app.py:65 | a found sub-node is the earliest descendant, in document order, with the searched tag |
| XmlTree.PreorderClosed | app.py:23 | a descendant of an element inside a forest's listing is itself in that listing |
| XmlTree.DescendantsTransitive | app.py:22-23 | a sub-node found below a listed light is also a descendant of the root |
| Lights.Locate | app.py:20-24 | the lookup shared by the updaters (also app.py:36-42 and 60-66): a located node is well-formed and carries the sub-node tag; the three outcomes are stated by `Lights.LocateSpec` |
| Lights.LocateSpec | app.py:20-24 | the lookup reports a missing element exactly when `0 < position <= len(elements)` fails; a missing sub-node exactly when the position is in range and no descendant of that element has the sub-node tag; otherwise it yields that element's first such descendant, which lies inside the tree |
| Lights.WithRgb | app.py:25-27 | after a color write the node's attributes are its old ones plus `r`, `g`, `b`, each set to the channel times 1000; no other attribute changes |
| Lights.WithRatio | app.py:44-47 | after a brightness write the node's attributes are its old ones plus `n` = percentage × 1 000 000 and `d` = 1 000 000; no other attribute changes |
| Lights.ColorRoundTrip | app.py:25-27 | reading the channels back from a written color node (value / 1000) gives the channels written |
| Lights.BrightnessRoundTrip | app.py:44-47 | the ratio `n / d` stored by a brightness write is exactly the percentage written |
| Lights.WithRgbIdempotent | app.py:25-27 | repeating a color write with the same channels gives the same attributes |
| Lights.WithRatioIdempotent | app.py:46-47 | repeating a brightness write with the same percentage gives the same attributes |
| Lights.UpdateRgbValues | app.py:19-32 | the outcome is Updated, ElementNotFound or SubNodeNotFound exactly as the lookup decides. On success the located `a:scrgbClr` node holds the color write of its old attributes. Every other element, the root included, keeps its attributes. Only the located node may be written |
| Lights.UpdateIntensity | app.py:35-52 | as above, for a brightness write on the first `am3d:intensity` descendant |
| Lights.UpdateAmbientLightRgb | app.py:55-56 | the color edit of the `position`-th `am3d:ambientLight`, with the same outcome and new state as the general color edit |
| Lights.UpdateAmbientLightIntensity | app.py:59-76 | a brightness write on the first `am3d:illuminance` descendant of the `position`-th ambient light, with the same three outcomes and the same frame |
| Lights.RepeatRgbValues | app.py:19-32 | calling the color edit twice with the same arguments reports, both times, the outcome the lookup decides, and leaves the located node as a single call would |
| Lights.RepeatIntensity | app.py:35-52 | calling the brightness edit twice with the same arguments reports, both times, the outcome the lookup decides, and leaves the located node as a single call would |
| Lights.RepeatAmbientLightIntensity | app.py:59-76 | calling the ambient light brightness edit twice reports, both times, the outcome the lookup decides, and leaves the `am3d:illuminance` node as a single call would |
| Driver.SlideLights | app.py:107-108 | on the modelled slide, listing `am3d:ptLight` gives the three point lights in document order and listing `am3d:ambientLight` gives the single ambient light |
| Driver.LightSubNodes | app.py:23 | inside a light made of a color node and a ratio node, `find` picks those two nodes by tag and finds nothing for any other tag |
| Driver.PointLightTargets | app.py:119-125 | the color and brightness edits of point light k (1 to 3) land on that light's own color and intensity nodes |
| Driver.AmbientLightTargets | app.py:128-129 | the ambient light edits at position 1 land on its color and illuminance nodes; position 2 is out of range |
| Driver.EditFirstPointLight | app.py:119 | the color (255, 0, 0) and brightness 75 edits of point light 1 both succeed. Its color node then holds r = 255000, g = 0, b = 0. Its intensity node holds n = 75000000, d = 1000000. Every other light's nodes are unchanged |
| Driver.EditAmbientLight | app.py:128-129 | the ambient light edits (5, 5, 5) and 10 both succeed. They give r = g = b = 5000 and n = 10000000, d = 1000000 on the ambient light's nodes. The point lights are unchanged |
| Driver.EditMissingLights | app.py:21 | edits at positions 5 and 0 of three point lights, and at position 2 of one ambient light, all report the element missing and change no node |
| Driver.EditLightWithoutColor | app.py:24 | on a point light with an intensity node but no color node, the color edit reports the missing sub-node and leaves the intensity node unchanged; the brightness edit still succeeds |
| Driver.NewSlide | app.py:101-104 | stands in for the parsed root: four lights directly under the root, each with one color node and one ratio node as direct children, all nodes distinct and initially zero |
| Driver.NestedLightLookup | app.py:20-23 | in a point light whose first child is a wrapper holding a color node, followed by a second color node, the search lists that light and finds the nested color node first |
| Driver.EditNestedColor | app.py:23-27 | a color edit of that light writes r = 255000, g = 0, b = 0 on the nested color node and leaves the second color node unchanged |

## Left out

- Unpacking and repacking the `.pptx` archive (app.py:6-8, 84-89) and writing the XML out (app.py:79-81): these are file and archive I/O.
- XML parsing (app.py:101-104): the model starts from an already-built tree. `Driver.NewSlide` builds one.
- Namespace resolution (app.py:12-14, 39-40, 63-64): tags are modelled as prefixed strings such as `"am3d:ptLight"`, already resolved. The program adds the `am3d` prefix to a fresh copy of the root's namespace map for each lookup; the document is not changed.
- The printed messages (app.py:28-32, 48-52, 72-76): each is represented by the `Outcome` a method returns.
- The source serialises attribute values with `str()` and reads them as strings. The model stores written values as `Num` and leaves the decimal text form out.
- Lights.WithRgb: channel and percentage inputs are integers, so `int(x * 1000)` is exact. Fractional inputs and `int()` truncation of floats are not modelled.
- Lights.WithRatio: modelled only for integer percentages, as for WithRgb.
- The listing and printing of light elements in the driver (app.py:110-116) is output only. Only the lookup it performs is modelled, in `Driver.SlideLights`.
- The driver's edits of point lights 2 and 3 (app.py:120-121, 124-125) are not replayed one by one. `Driver.PointLightTargets` shows where each would land, for every k from 1 to 3.
- XmlTree.Element: the tree's shape (tags and children) is `const`, since no modelled operation changes it. `Valid` does not exclude a subtree shared between two parents, which a parsed XML tree never has.
