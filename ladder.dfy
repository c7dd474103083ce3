/** The ladder diagram as the conversion service produces it and the view and
    the export panel consume it: `{ rungs: [{ elements: [...] }], metadata }`.
    Every field the front end reads with `?.` or `||` may be missing, so those
    fields are optional here. */
module Ladder {
  import opened Wrappers

  /** The `type` tag of an element. Any tag other than the three the view and
      the exporter understand (for instance 'line') is `Other`. */
  datatype ElementKind = Contact | Coil | Function | Other(tag: string)

  /** One element of a rung. `x` and `y` are what the producer wrote; the view
      never reads them. */
  datatype Element = Element(
    kind: ElementKind,
    address: Option<string>,
    description: Option<string>,
    isNormallyOpen: Option<bool>,
    labelText: Option<string>,
    x: int,
    y: int)

  /** A rung; `elements` may be absent. */
  datatype Rung = Rung(elements: Option<seq<Element>>)

  /** The diagram with its metadata (`plcType`, `generatedAt`). */
  datatype LadderData = LadderData(rungs: seq<Rung>, plcType: string, generatedAt: string)

  /** JavaScript truthiness of an optional string: defined and non-empty. */
  predicate Truthy(s: Option<string>) {
    s.Some? && s.value != ""
  }

  /** `s || d` for an optional string. */
  function OrElse(s: Option<string>, d: string): string {
    if Truthy(s) then s.value else d
  }

  /** `rung.elements`, with a missing list read as the empty one (what
      `if (rung.elements)` and `rung.elements?.length || 0` amount to). */
  function ElementsOf(r: Rung): seq<Element> {
    r.elements.GetOr([])
  }

  /** `element.isNormallyOpen === false`: only an explicit `false` makes a
      contact normally closed. */
  predicate IsNormallyClosed(e: Element) {
    e.isNormallyOpen == Some(false)
  }
}
