/**
 * `ColombianCities` (sire_converter.py lines 432-565): recognises a Colombian city, or the
 * country itself, in a free-text destination, so that the destination can be reported as
 * Colombia.
 */
module ColombianCities {
  import opened Strings
  import opened Tables
  import opened Cells
  import opened Records
  import CountryCodes

  /** Department capitals and main cities (sire_converter.py lines 439-469). */
  const Capitals: Table := [
    ("MEDELLIN", 5001), ("MEDELL\U{CD}N", 5001), ("BOGOTA", 11001), ("BOGOT\U{C1}", 11001),
    ("SANTA FE DE BOGOTA", 11001), ("CALI", 76001), ("SANTIAGO DE CALI", 76001),
    ("BARRANQUILLA", 8001), ("CARTAGENA", 13001), ("CARTAGENA DE INDIAS", 13001),
    ("SANTA MARTA", 47001), ("BUCARAMANGA", 68001), ("PEREIRA", 66001), ("MANIZALES", 17001),
    ("CUCUTA", 54001), ("C\U{DA}CUTA", 54001), ("IBAGUE", 73001), ("IBAGU\U{C9}", 73001),
    ("VILLAVICENCIO", 50001), ("PASTO", 52001), ("SAN JUAN DE PASTO", 52001),
    ("MONTERIA", 23001), ("MONTER\U{CD}A", 23001), ("NEIVA", 41001), ("ARMENIA", 63001),
    ("VALLEDUPAR", 20001), ("POPAYAN", 19001), ("POPAY\U{C1}N", 19001), ("SINCELEJO", 70001),
    ("TUNJA", 15001), ("RIOHACHA", 44001), ("QUIBDO", 27001), ("QUIBD\U{D3}", 27001),
    ("FLORENCIA", 18001), ("YOPAL", 85001), ("MOCOA", 86001), ("LETICIA", 91001),
    ("ARAUCA", 81001), ("INIRIDA", 94001), ("IN\U{CD}RIDA", 94001), ("MITU", 97001),
    ("MIT\U{DA}", 97001), ("PUERTO CARRENO", 99001), ("PUERTO CARRE\U{D1}O", 99001),
    ("SAN JOSE DEL GUAVIARE", 95001), ("SAN JOS\U{C9} DEL GUAVIARE", 95001)
  ]

  /** Tourist towns (sire_converter.py lines 472-517). */
  const TouristTowns: Table := [
    ("SAN ANDRES", 88001), ("SAN ANDR\U{C9}S", 88001), ("SAN ANDRES ISLA", 88001),
    ("PROVIDENCIA", 88564), ("BUGA", 76111), ("GUADALAJARA DE BUGA", 76111),
    ("BUENAVENTURA", 76109), ("BARICHARA", 68079), ("VILLA DE LEYVA", 15407), ("GUATAPE", 5321),
    ("GUATAP\U{C9}", 5321), ("JARDIN", 5364), ("JARD\U{CD}N", 5364), ("SALENTO", 63690),
    ("FILANDIA", 63272), ("SANTA FE DE ANTIOQUIA", 5042), ("SANTAFE DE ANTIOQUIA", 5042),
    ("RIONEGRO", 5615), ("ENVIGADO", 5266), ("ITAGUI", 5360), ("ITAG\U{DC}\U{CD}", 5360),
    ("BELLO", 5088), ("SABANETA", 5631), ("LA CEJA", 5376), ("MARINILLA", 5440),
    ("EL RETIRO", 5607), ("RETIRO", 5607), ("GIRARDOTA", 5308), ("COPACABANA", 5212),
    ("ZIPAQUIRA", 25899), ("ZIPAQUIR\U{C1}", 25899), ("CHIA", 25175), ("CH\U{CD}A", 25175),
    ("CAJICA", 25126), ("CAJIC\U{C1}", 25126), ("SOACHA", 25754), ("GIRARDOT", 25307),
    ("MELGAR", 73449), ("VILLETA", 25873), ("LA MESA", 25386), ("FUSAGASUGA", 25290),
    ("FUSAGASUG\U{C1}", 25290), ("PALMIRA", 76520), ("TULUA", 76834), ("TULU\U{C1}", 76834),
    ("CARTAGO", 76147), ("JAMUNDI", 76364), ("JAMUND\U{CD}", 76364), ("YUMBO", 76892),
    ("SOLEDAD", 8758), ("MALAMBO", 8433), ("TURBACO", 13836), ("MAGANGUE", 13430),
    ("MAGANGU\U{C9}", 13430), ("LORICA", 23417), ("CERETE", 23162), ("CERET\U{C9}", 23162),
    ("SOGAMOSO", 15759), ("DUITAMA", 15238), ("PAIPA", 15516), ("IPIALES", 52356),
    ("TUMACO", 52835)
  ]

  /** `CITIES` in declaration order; the country name closes it (lines 519-520). */
  const Cities: Table := Capitals + TouristTowns + [("COLOMBIA", 169)]

  /**
   * `is_colombian_city` on a normal form (lines 539-552): an exact key gives its code;
   * otherwise, for a text of at least five characters, the first key, in table order,
   * that occurs inside the text gives its code; otherwise no city.
   */
  function CityMatch(n: string): (r: (bool, string))
    ensures r.0 <==>
      (exists i :: 0 <= i < |Cities| && Cities[i].0 == n)
      || (|n| >= 5 && exists i :: 0 <= i < |Cities| && Contains(n, Cities[i].0))
    ensures !r.0 ==> r.1 == ""
    ensures r.0 ==> r.1 != "" && AllDigits(r.1)
    ensures (exists i :: 0 <= i < |Cities| && Cities[i].0 == n) ==>
      exists i :: 0 <= i < |Cities| && Cities[i].0 == n && r.1 == CodeText(Cities[i].1)
                  && forall j :: 0 <= j < i ==> Cities[j].0 != n
    ensures (forall i :: 0 <= i < |Cities| ==> Cities[i].0 != n) && r.0 ==>
      exists i :: 0 <= i < |Cities| && Contains(n, Cities[i].0) && r.1 == CodeText(Cities[i].1)
                  && forall j :: 0 <= j < i ==> !Contains(n, Cities[j].0)
  {
    match FirstIndex(Cities, (e: (string, nat)) => e.0 == n)
    case Some(i) => (true, CodeText(Cities[i].1))
    case None =>
      if |n| < 5 then (false, "")
      else
        match FirstIndex(Cities, (e: (string, nat)) => Contains(n, e.0))
        case Some(i) => (true, CodeText(Cities[i].1))
        case None => (false, "")
  }

  /** `ColombianCities.is_colombian_city` (lines 524-552). */
  function IsColombianCity(c: Cell): (r: (bool, string))
    ensures Blank(c) ==> r == (false, "")
    ensures r.0 <==> !Blank(c) && CityMatch(CountryCodes.Normalize(c)).0
  {
    if Blank(c) then (false, "") else CityMatch(CountryCodes.Normalize(c))
  }

  /** `ColombianCities.get_colombia_code_if_city` (lines 554-565). */
  function ColombiaCodeIfCity(c: Cell): (r: (string, Confidence))
    ensures r == ("169", High) || r == ("", Undetected)
    ensures r.1 == High <==> IsColombianCity(c).0
  {
    if IsColombianCity(c).0 then ("169", High) else ("", Undetected)
  }

  // ---------------------------------------------------------------- properties

  /**
   * The partial stage looks for a key inside the text, not the text inside a key, so a
   * longer foreign name that begins with a city is taken for that city: "CALIFORNIA"
   * holds "CALI" and is reported as a Colombian destination.
   */
  lemma CaliforniaIsColombian()
    ensures ColombiaCodeIfCity(Text("CALIFORNIA")) == ("169", High)
  {
    CaliforniaHoldsCali();
    WordOfCapitals("CALIFORNIA");
    CityWordIsColombian("CALIFORNIA");
  }

  /** "CALIFORNIA" is written in ASCII capitals. */
  lemma WordOfCapitals(w: string)
    requires w == "CALIFORNIA"
    ensures forall i :: 0 <= i < |w| ==> IsAsciiUpper(w[i])
  {
  }

  /** A word of ASCII capitals that the city stage accepts gives Colombia at HIGH. */
  lemma CityWordIsColombian(w: string)
    requires w != "" && forall i :: 0 <= i < |w| ==> IsAsciiUpper(w[i])
    requires CityMatch(w).0
    ensures ColombiaCodeIfCity(Text(w)) == ("169", High)
  {
    CountryCodes.NormalFormOfWord(w);
    WordNotBlank(w);
    MatchedCityIsColombian(Text(w), w);
  }

  /** A word of ASCII capitals, as a cell, is not blank and reads as itself. */
  lemma WordNotBlank(w: string)
    requires w != "" && forall i :: 0 <= i < |w| ==> IsAsciiUpper(w[i])
    ensures !Blank(Text(w)) && Str(Text(w)) == w
  {
    assert IsAsciiUpper(w[0]) && IsAsciiUpper(w[|w| - 1]);
    StripIdentity(w);
    StrippedTextNotBlank(w);
  }

  /** A cell that is not blank and whose normal form `n` is a city gives Colombia at HIGH. */
  lemma MatchedCityIsColombian(c: Cell, n: string)
    requires !Blank(c) && CountryCodes.NormalizeText(Str(c)) == n && CityMatch(n).0
    ensures ColombiaCodeIfCity(c) == ("169", High)
  {
  }

  /** The key "CALI" occurs in "CALIFORNIA". */
  lemma CaliforniaHoldsCali()
    ensures CityMatch("CALIFORNIA").0
  {
    assert Cities[5].0 == "CALI";
    assert IsPrefix("CALI", "CALIFORNIA");
  }
}
