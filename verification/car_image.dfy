/** The car picture's tint (`components/ui/CarImage.tsx`): an explicit hex
    colour wins; otherwise the colour name is looked up, lowercased, in a table
    of English and Spanish names, falling back to red. The lookup in the
    source indexes a plain object, so names of members every object inherits
    also hit; `GetColorHexAsWritten` models that, `GetColorHex` the intended
    lookup over the table's own names. */
module CarImage {
  import opened Wrappers
  import opened Text

  const DefaultHex: string := "#E74C3C"

  /** The table's own entries: name to hex colour. */
  const ColorMap: map<string, string> := map[
    "red" := "#E74C3C", "rojo" := "#E74C3C",
    "blue" := "#3498DB", "azul" := "#3498DB",
    "black" := "#2C3E50", "negro" := "#2C3E50",
    "white" := "#ECF0F1", "blanco" := "#ECF0F1",
    "gray" := "#95A5A6", "grey" := "#95A5A6", "gris" := "#95A5A6",
    "green" := "#27AE60", "verde" := "#27AE60",
    "yellow" := "#F1C40F", "amarillo" := "#F1C40F",
    "orange" := "#E67E22", "naranja" := "#E67E22",
    "purple" := "#9B59B6", "morado" := "#9B59B6",
    "silver" := "#BDC3C7", "plateado" := "#BDC3C7"
  ]

  /** The colours the car can be drawn in. */
  const Palette: set<string> := {
    "#E74C3C", "#3498DB", "#2C3E50", "#ECF0F1", "#95A5A6",
    "#27AE60", "#F1C40F", "#E67E22", "#9B59B6", "#BDC3C7"
  }

  predicate IsHexDigit(c: char) {
    IsDigit(c) || 'A' <= c <= 'F'
  }

  /** `#` followed by six upper-case hex digits. */
  predicate IsHexColor(s: string) {
    |s| == 7 && s[0] == '#' && forall i :: 1 <= i < 7 ==> IsHexDigit(s[i])
  }

  /** Every table value is in the palette, and every palette colour is a hex colour. */
  lemma TableInPalette()
    ensures forall k :: k in ColorMap ==> ColorMap[k] in Palette
    ensures forall c :: c in Palette ==> IsHexColor(c)
  {
  }

  /** `getColorHex` over the table's own names: no name or an empty one gives
      red, otherwise the lowercased name's entry, or red when there is none. */
  function GetColorHex(color: Option<string>): (r: string)
    ensures color.None? || color.value == "" ==> r == DefaultHex
    ensures color.Some? && Lower(color.value) in ColorMap ==> r == ColorMap[Lower(color.value)]
    ensures color.Some? && Lower(color.value) !in ColorMap ==> r == DefaultHex
  {
    if color.None? || color.value == "" then DefaultHex
    else
      var lowerColor := Lower(color.value);
      if lowerColor in ColorMap then ColorMap[lowerColor] else DefaultHex
  }

  /** Whatever the name, the tint is a palette colour, hence a hex colour. */
  lemma ColorIsHex(color: Option<string>)
    ensures GetColorHex(color) in Palette
    ensures IsHexColor(GetColorHex(color))
  {
    TableInPalette();
  }

  /** The lookup ignores case: a name and its lowercase give the same colour. */
  lemma CaseInsensitive(c: string)
    ensures GetColorHex(Some(c)) == GetColorHex(Some(Lower(c)))
  {
    LowerIdempotent(c);
  }

  /** The table's names are all in lower case, so each one is found as written. */
  lemma NamesAreLowerCase()
    ensures forall k :: k in ColorMap ==> Lower(k) == k
  {
    forall k | k in ColorMap
      ensures Lower(k) == k
    {
      assert forall i :: 0 <= i < |k| ==> !IsUpper(k[i]);
    }
  }

  /** Names sharing an entry, such as an English name and its Spanish
      translation, give the same colour. */
  lemma SameEntrySameColor(a: string, b: string)
    requires a in ColorMap && b in ColorMap && ColorMap[a] == ColorMap[b]
    ensures GetColorHex(Some(a)) == GetColorHex(Some(b))
  {
    NamesAreLowerCase();
  }

  /** Red and rojo give the default red; gray, grey and gris give one grey. */
  lemma Synonyms()
    ensures GetColorHex(Some("red")) == GetColorHex(Some("rojo")) == DefaultHex
    ensures GetColorHex(Some("gray")) == GetColorHex(Some("grey")) == GetColorHex(Some("gris")) == "#95A5A6"
  {
    NamesAreLowerCase();
    assert ColorMap["red"] == ColorMap["rojo"] == DefaultHex;
    assert ColorMap["gray"] == ColorMap["grey"] == ColorMap["gris"] == "#95A5A6";
  }

  /** The tint: `colorHex || getColorHex(color)`, so a given non-empty hex wins. */
  function TintColor(colorHex: Option<string>, color: Option<string>): (r: string)
    ensures colorHex.Some? && colorHex.value != "" ==> r == colorHex.value
    ensures colorHex.None? || colorHex.value == "" ==> r == GetColorHex(color)
  {
    if colorHex.Some? && colorHex.value != "" then colorHex.value else GetColorHex(color)
  }

  /** Without an explicit hex the tint is always a palette colour. */
  lemma TintFromName(color: Option<string>)
    ensures TintColor(None, color) in Palette
    ensures TintColor(Some(""), color) in Palette
  {
    ColorIsHex(color);
  }

  // ------------------------------------------------------- the lookup as written

  /** What reading a property of the table can give: one of its strings, a
      member inherited from `Object.prototype` (the `Object` constructor
      function or the prototype object itself), or nothing. */
  datatype JsValue = Str(s: string) | ObjectConstructor | ObjectPrototype | Undefined

  /** JavaScript truthiness of such a value. */
  predicate Truthy(v: JsValue) {
    match v
    case Str(s) => s != ""
    case Undefined => false
    case _ => true
  }

  /** `colorMap[key]`: the own entry, else what every object inherits under
      that name. Only lower-case inherited names matter here, since the key is
      lowercased first. */
  function PropertyOf(key: string): (v: JsValue)
    ensures key in ColorMap ==> v == Str(ColorMap[key])
    ensures key !in ColorMap && key != "constructor" && key != "__proto__" ==> v == Undefined
  {
    if key in ColorMap then Str(ColorMap[key])
    else if key == "constructor" then ObjectConstructor
    else if key == "__proto__" then ObjectPrototype
    else Undefined
  }

  /** `getColorHex` as written: `colorMap[lowerColor] || '#E74C3C'`. */
  function GetColorHexAsWritten(color: Option<string>): (r: JsValue)
    ensures color.Some? && color.value != "" && Lower(color.value) in ColorMap ==> r == Str(ColorMap[Lower(color.value)])
  {
    if color.None? || color.value == "" then Str(DefaultHex)
    else
      var v := PropertyOf(Lower(color.value));
      if Truthy(v) then v else Str(DefaultHex)
  }

  /** Away from the two inherited names the lookup as written gives the
      intended colour. */
  lemma AsWrittenAgreesElsewhere(color: Option<string>)
    requires color.Some? ==> Lower(color.value) != "constructor" && Lower(color.value) != "__proto__"
    ensures GetColorHexAsWritten(color) == Str(GetColorHex(color))
  {
  }

  /** A vehicle whose colour is entered as `Constructor` or `__proto__` gets a
      function or an object as its tint instead of a colour string. */
  lemma PrototypeNameLeaks()
    ensures GetColorHexAsWritten(Some("Constructor")) == ObjectConstructor
    ensures GetColorHexAsWritten(Some("__proto__")) == ObjectPrototype
    ensures !GetColorHexAsWritten(Some("Constructor")).Str?
  {
    assert Lower("Constructor") == "constructor";
    assert Lower("__proto__") == "__proto__";
  }
}
