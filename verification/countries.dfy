/** The static country table of the phone-number field
    (`getAvailableCountries` in packages/phone-number-field/common.ts): ISO
    3166-1 alpha-2 region codes with their names, flag emoji and ITU-T E.164
    country calling codes, and the lookup the Android field makes in it. The
    table is written region by region, as the source groups it. */
module Countries {
  import opened Optional
  import opened Text
  import opened Search

  datatype CountryInfo = CountryInfo(code: string, name: string, flag: string, dialCode: string)

  const Asia: seq<CountryInfo> := [
    CountryInfo("ID", "Indonesia", "🇮🇩", "+62"),
    CountryInfo("SG", "Singapore", "🇸🇬", "+65"),
    CountryInfo("MY", "Malaysia", "🇲🇾", "+60"),
    CountryInfo("TH", "Thailand", "🇹🇭", "+66"),
    CountryInfo("VN", "Vietnam", "🇻🇳", "+84"),
    CountryInfo("PH", "Philippines", "🇵🇭", "+63"),
    CountryInfo("JP", "Japan", "🇯🇵", "+81"),
    CountryInfo("KR", "South Korea", "🇰🇷", "+82"),
    CountryInfo("CN", "China", "🇨🇳", "+86"),
    CountryInfo("IN", "India", "🇮🇳", "+91"),
    CountryInfo("PK", "Pakistan", "🇵🇰", "+92"),
    CountryInfo("BD", "Bangladesh", "🇧🇩", "+880"),
    CountryInfo("LK", "Sri Lanka", "🇱🇰", "+94"),
    CountryInfo("MM", "Myanmar", "🇲🇲", "+95"),
    CountryInfo("KH", "Cambodia", "🇰🇭", "+855"),
    CountryInfo("LA", "Laos", "🇱🇦", "+856"),
    CountryInfo("BN", "Brunei", "🇧🇳", "+673"),
    CountryInfo("TW", "Taiwan", "🇹🇼", "+886"),
    CountryInfo("HK", "Hong Kong", "🇭🇰", "+852"),
    CountryInfo("MO", "Macau", "🇲🇴", "+853")
  ]

  const MiddleEast: seq<CountryInfo> := [
    CountryInfo("AE", "United Arab Emirates", "🇦🇪", "+971"),
    CountryInfo("SA", "Saudi Arabia", "🇸🇦", "+966"),
    CountryInfo("QA", "Qatar", "🇶🇦", "+974"),
    CountryInfo("KW", "Kuwait", "🇰🇼", "+965"),
    CountryInfo("BH", "Bahrain", "🇧🇭", "+973"),
    CountryInfo("OM", "Oman", "🇴🇲", "+968"),
    CountryInfo("JO", "Jordan", "🇯🇴", "+962"),
    CountryInfo("LB", "Lebanon", "🇱🇧", "+961"),
    CountryInfo("IL", "Israel", "🇮🇱", "+972"),
    CountryInfo("TR", "Turkey", "🇹🇷", "+90"),
    CountryInfo("IR", "Iran", "🇮🇷", "+98"),
    CountryInfo("IQ", "Iraq", "🇮🇶", "+964")
  ]

  const Europe: seq<CountryInfo> := [
    CountryInfo("GB", "United Kingdom", "🇬🇧", "+44"),
    CountryInfo("DE", "Germany", "🇩🇪", "+49"),
    CountryInfo("FR", "France", "🇫🇷", "+33"),
    CountryInfo("IT", "Italy", "🇮🇹", "+39"),
    CountryInfo("ES", "Spain", "🇪🇸", "+34"),
    CountryInfo("NL", "Netherlands", "🇳🇱", "+31"),
    CountryInfo("BE", "Belgium", "🇧🇪", "+32"),
    CountryInfo("CH", "Switzerland", "🇨🇭", "+41"),
    CountryInfo("AT", "Austria", "🇦🇹", "+43"),
    CountryInfo("SE", "Sweden", "🇸🇪", "+46"),
    CountryInfo("NO", "Norway", "🇳🇴", "+47"),
    CountryInfo("DK", "Denmark", "🇩🇰", "+45"),
    CountryInfo("FI", "Finland", "🇫🇮", "+358"),
    CountryInfo("PL", "Poland", "🇵🇱", "+48"),
    CountryInfo("CZ", "Czech Republic", "🇨🇿", "+420"),
    CountryInfo("HU", "Hungary", "🇭🇺", "+36"),
    CountryInfo("RO", "Romania", "🇷🇴", "+40"),
    CountryInfo("BG", "Bulgaria", "🇧🇬", "+359"),
    CountryInfo("GR", "Greece", "🇬🇷", "+30"),
    CountryInfo("PT", "Portugal", "🇵🇹", "+351"),
    CountryInfo("IE", "Ireland", "🇮🇪", "+353"),
    CountryInfo("RU", "Russia", "🇷🇺", "+7"),
    CountryInfo("UA", "Ukraine", "🇺🇦", "+380")
  ]

  const NorthAmerica: seq<CountryInfo> := [
    CountryInfo("US", "United States", "🇺🇸", "+1"),
    CountryInfo("CA", "Canada", "🇨🇦", "+1"),
    CountryInfo("MX", "Mexico", "🇲🇽", "+52")
  ]

  const SouthAmerica: seq<CountryInfo> := [
    CountryInfo("BR", "Brazil", "🇧🇷", "+55"),
    CountryInfo("AR", "Argentina", "🇦🇷", "+54"),
    CountryInfo("CL", "Chile", "🇨🇱", "+56"),
    CountryInfo("CO", "Colombia", "🇨🇴", "+57"),
    CountryInfo("PE", "Peru", "🇵🇪", "+51"),
    CountryInfo("VE", "Venezuela", "🇻🇪", "+58"),
    CountryInfo("EC", "Ecuador", "🇪🇨", "+593"),
    CountryInfo("UY", "Uruguay", "🇺🇾", "+598"),
    CountryInfo("PY", "Paraguay", "🇵🇾", "+595"),
    CountryInfo("BO", "Bolivia", "🇧🇴", "+591")
  ]

  const Africa: seq<CountryInfo> := [
    CountryInfo("ZA", "South Africa", "🇿🇦", "+27"),
    CountryInfo("NG", "Nigeria", "🇳🇬", "+234"),
    CountryInfo("EG", "Egypt", "🇪🇬", "+20"),
    CountryInfo("KE", "Kenya", "🇰🇪", "+254"),
    CountryInfo("GH", "Ghana", "🇬🇭", "+233"),
    CountryInfo("ET", "Ethiopia", "🇪🇹", "+251"),
    CountryInfo("TZ", "Tanzania", "🇹🇿", "+255"),
    CountryInfo("UG", "Uganda", "🇺🇬", "+256"),
    CountryInfo("MA", "Morocco", "🇲🇦", "+212"),
    CountryInfo("DZ", "Algeria", "🇩🇿", "+213"),
    CountryInfo("TN", "Tunisia", "🇹🇳", "+216"),
    CountryInfo("LY", "Libya", "🇱🇾", "+218")
  ]

  const Oceania: seq<CountryInfo> := [
    CountryInfo("AU", "Australia", "🇦🇺", "+61"),
    CountryInfo("NZ", "New Zealand", "🇳🇿", "+64"),
    CountryInfo("FJ", "Fiji", "🇫🇯", "+679"),
    CountryInfo("PG", "Papua New Guinea", "🇵🇬", "+675")
  ]

  /** `getAvailableCountries()`, in the source's order. */
  const AvailableCountries: seq<CountryInfo> :=
    Asia + MiddleEast + Europe + NorthAmerica + SouthAmerica + Africa + Oceania

  /** Two upper-case Latin letters. */
  predicate IsAlpha2(code: string) {
    |code| == 2 && 'A' <= code[0] <= 'Z' && 'A' <= code[1] <= 'Z'
  }

  /** A plus sign followed by one to three digits. */
  predicate IsCallingCode(dialCode: string) {
    2 <= |dialCode| <= 4 && dialCode[0] == '+' && AllDigits(dialCode[1..])
  }

  /** An entry is well formed: an alpha-2 code and a calling code. */
  predicate WellFormed(c: CountryInfo) {
    IsAlpha2(c.code) && IsCallingCode(c.dialCode)
  }

  predicate CodesDistinct(s: seq<CountryInfo>) {
    forall i, j :: 0 <= i < j < |s| ==> s[i].code != s[j].code
  }

  predicate CodesDisjoint(s: seq<CountryInfo>, t: seq<CountryInfo>) {
    forall i, j :: 0 <= i < |s| && 0 <= j < |t| ==> s[i].code != t[j].code
  }

  /** Joining two tables with distinct codes and no code in common gives a
      table with distinct codes. */
  lemma DistinctConcat(s: seq<CountryInfo>, t: seq<CountryInfo>)
    requires CodesDistinct(s) && CodesDistinct(t) && CodesDisjoint(s, t)
    ensures CodesDistinct(s + t)
  {
    var u := s + t;
    forall i, j | 0 <= i < j < |u|
      ensures u[i].code != u[j].code
    {
      if j < |s| {
        assert u[i] == s[i] && u[j] == s[j];
      } else if i >= |s| {
        assert u[i] == t[i - |s|] && u[j] == t[j - |s|];
      } else {
        assert u[i] in s && u[j] in t;
      }
    }
  }

  lemma DisjointUnion(s: seq<CountryInfo>, t: seq<CountryInfo>, v: seq<CountryInfo>)
    requires CodesDisjoint(s, v) && CodesDisjoint(t, v)
    ensures CodesDisjoint(s + t, v)
  {
  }

  lemma AsiaWellFormed()
    ensures forall i :: 0 <= i < |Asia| ==> WellFormed(Asia[i])
    ensures CodesDistinct(Asia)
  {
    AsiaCodes();
    AsiaDials();
    AsiaDistinct();
  }

  lemma AsiaCodes()
    ensures forall i :: 0 <= i < |Asia| ==> IsAlpha2(Asia[i].code)
  {
  }

  lemma AsiaDials()
    ensures forall i :: 0 <= i < |Asia| ==> IsCallingCode(Asia[i].dialCode)
  {
  }

  lemma AsiaDistinct()
    ensures CodesDistinct(Asia)
  {
  }

  lemma MiddleEastWellFormed()
    ensures forall i :: 0 <= i < |MiddleEast| ==> WellFormed(MiddleEast[i])
    ensures CodesDistinct(MiddleEast)
  {
    MiddleEastCodes();
    MiddleEastDials();
    MiddleEastDistinct();
  }

  lemma MiddleEastCodes()
    ensures forall i :: 0 <= i < |MiddleEast| ==> IsAlpha2(MiddleEast[i].code)
  {
  }

  lemma MiddleEastDials()
    ensures forall i :: 0 <= i < |MiddleEast| ==> IsCallingCode(MiddleEast[i].dialCode)
  {
  }

  lemma MiddleEastDistinct()
    ensures CodesDistinct(MiddleEast)
  {
  }

  lemma EuropeWellFormed()
    ensures forall i :: 0 <= i < |Europe| ==> WellFormed(Europe[i])
    ensures CodesDistinct(Europe)
  {
    EuropeCodes();
    EuropeDials();
    EuropeDistinct();
  }

  lemma EuropeCodes()
    ensures forall i :: 0 <= i < |Europe| ==> IsAlpha2(Europe[i].code)
  {
  }

  lemma EuropeDials()
    ensures forall i :: 0 <= i < |Europe| ==> IsCallingCode(Europe[i].dialCode)
  {
  }

  lemma EuropeDistinct()
    ensures CodesDistinct(Europe)
  {
    forall i, j | 0 <= i < j < |Europe|
      ensures Europe[i].code != Europe[j].code
    {
      if i < 12 {
      }
    }
  }

  lemma NorthAmericaWellFormed()
    ensures forall i :: 0 <= i < |NorthAmerica| ==> WellFormed(NorthAmerica[i])
    ensures CodesDistinct(NorthAmerica)
  {
    NorthAmericaCodes();
    NorthAmericaDials();
    NorthAmericaDistinct();
  }

  lemma NorthAmericaCodes()
    ensures forall i :: 0 <= i < |NorthAmerica| ==> IsAlpha2(NorthAmerica[i].code)
  {
  }

  lemma NorthAmericaDials()
    ensures forall i :: 0 <= i < |NorthAmerica| ==> IsCallingCode(NorthAmerica[i].dialCode)
  {
  }

  lemma NorthAmericaDistinct()
    ensures CodesDistinct(NorthAmerica)
  {
  }

  lemma SouthAmericaWellFormed()
    ensures forall i :: 0 <= i < |SouthAmerica| ==> WellFormed(SouthAmerica[i])
    ensures CodesDistinct(SouthAmerica)
  {
    SouthAmericaCodes();
    SouthAmericaDials();
    SouthAmericaDistinct();
  }

  lemma SouthAmericaCodes()
    ensures forall i :: 0 <= i < |SouthAmerica| ==> IsAlpha2(SouthAmerica[i].code)
  {
  }

  lemma SouthAmericaDials()
    ensures forall i :: 0 <= i < |SouthAmerica| ==> IsCallingCode(SouthAmerica[i].dialCode)
  {
  }

  lemma SouthAmericaDistinct()
    ensures CodesDistinct(SouthAmerica)
  {
  }

  lemma AfricaWellFormed()
    ensures forall i :: 0 <= i < |Africa| ==> WellFormed(Africa[i])
    ensures CodesDistinct(Africa)
  {
    AfricaCodes();
    AfricaDials();
    AfricaDistinct();
  }

  lemma AfricaCodes()
    ensures forall i :: 0 <= i < |Africa| ==> IsAlpha2(Africa[i].code)
  {
  }

  lemma AfricaDials()
    ensures forall i :: 0 <= i < |Africa| ==> IsCallingCode(Africa[i].dialCode)
  {
  }

  lemma AfricaDistinct()
    ensures CodesDistinct(Africa)
  {
  }

  lemma OceaniaWellFormed()
    ensures forall i :: 0 <= i < |Oceania| ==> WellFormed(Oceania[i])
    ensures CodesDistinct(Oceania)
  {
    OceaniaCodes();
    OceaniaDials();
    OceaniaDistinct();
  }

  lemma OceaniaCodes()
    ensures forall i :: 0 <= i < |Oceania| ==> IsAlpha2(Oceania[i].code)
  {
  }

  lemma OceaniaDials()
    ensures forall i :: 0 <= i < |Oceania| ==> IsCallingCode(Oceania[i].dialCode)
  {
  }

  lemma OceaniaDistinct()
    ensures CodesDistinct(Oceania)
  {
  }

  lemma DisjointAsiaMiddleEast() ensures CodesDisjoint(Asia, MiddleEast) { }
  lemma DisjointAsiaEurope() ensures CodesDisjoint(Asia, Europe) { }
  lemma DisjointAsiaNorthAmerica() ensures CodesDisjoint(Asia, NorthAmerica) { }
  lemma DisjointAsiaSouthAmerica() ensures CodesDisjoint(Asia, SouthAmerica) { }
  lemma DisjointAsiaAfrica() ensures CodesDisjoint(Asia, Africa) { }
  lemma DisjointAsiaOceania() ensures CodesDisjoint(Asia, Oceania) { }
  lemma DisjointMiddleEastEurope() ensures CodesDisjoint(MiddleEast, Europe) { }
  lemma DisjointMiddleEastNorthAmerica() ensures CodesDisjoint(MiddleEast, NorthAmerica) { }
  lemma DisjointMiddleEastSouthAmerica() ensures CodesDisjoint(MiddleEast, SouthAmerica) { }
  lemma DisjointMiddleEastAfrica() ensures CodesDisjoint(MiddleEast, Africa) { }
  lemma DisjointMiddleEastOceania() ensures CodesDisjoint(MiddleEast, Oceania) { }
  lemma DisjointEuropeNorthAmerica() ensures CodesDisjoint(Europe, NorthAmerica) { }
  lemma DisjointEuropeSouthAmerica() ensures CodesDisjoint(Europe, SouthAmerica) { }
  lemma DisjointEuropeAfrica() ensures CodesDisjoint(Europe, Africa) { }
  lemma DisjointEuropeOceania() ensures CodesDisjoint(Europe, Oceania) { }
  lemma DisjointNorthAmericaSouthAmerica() ensures CodesDisjoint(NorthAmerica, SouthAmerica) { }
  lemma DisjointNorthAmericaAfrica() ensures CodesDisjoint(NorthAmerica, Africa) { }
  lemma DisjointNorthAmericaOceania() ensures CodesDisjoint(NorthAmerica, Oceania) { }
  lemma DisjointSouthAmericaAfrica() ensures CodesDisjoint(SouthAmerica, Africa) { }
  lemma DisjointSouthAmericaOceania() ensures CodesDisjoint(SouthAmerica, Oceania) { }
  lemma DisjointAfricaOceania() ensures CodesDisjoint(Africa, Oceania) { }

  /** Every entry is well formed: an alpha-2 code and a one-to-three-digit
      calling code. */
  lemma TableWellFormed()
    ensures forall c :: c in AvailableCountries ==> WellFormed(c)
  {
    AsiaWellFormed();
    MiddleEastWellFormed();
    EuropeWellFormed();
    NorthAmericaWellFormed();
    SouthAmericaWellFormed();
    AfricaWellFormed();
    OceaniaWellFormed();
  }

  /** No region appears twice in the table. */
  lemma TableCodesDistinct()
    ensures CodesDistinct(AvailableCountries)
  {
    AsiaWellFormed();
    MiddleEastWellFormed();
    DisjointAsiaMiddleEast();
    DistinctConcat(Asia, MiddleEast);
    EuropeWellFormed();
    DisjointAsiaEurope();
    DisjointMiddleEastEurope();
    DisjointUnion(Asia, MiddleEast, Europe);
    DistinctConcat(Asia + MiddleEast, Europe);
    NorthAmericaWellFormed();
    DisjointAsiaNorthAmerica();
    DisjointMiddleEastNorthAmerica();
    DisjointEuropeNorthAmerica();
    DisjointUnion(Asia, MiddleEast, NorthAmerica);
    DisjointUnion(Asia + MiddleEast, Europe, NorthAmerica);
    DistinctConcat(Asia + MiddleEast + Europe, NorthAmerica);
    SouthAmericaWellFormed();
    DisjointAsiaSouthAmerica();
    DisjointMiddleEastSouthAmerica();
    DisjointEuropeSouthAmerica();
    DisjointNorthAmericaSouthAmerica();
    DisjointUnion(Asia, MiddleEast, SouthAmerica);
    DisjointUnion(Asia + MiddleEast, Europe, SouthAmerica);
    DisjointUnion(Asia + MiddleEast + Europe, NorthAmerica, SouthAmerica);
    DistinctConcat(Asia + MiddleEast + Europe + NorthAmerica, SouthAmerica);
    AfricaWellFormed();
    DisjointAsiaAfrica();
    DisjointMiddleEastAfrica();
    DisjointEuropeAfrica();
    DisjointNorthAmericaAfrica();
    DisjointSouthAmericaAfrica();
    DisjointUnion(Asia, MiddleEast, Africa);
    DisjointUnion(Asia + MiddleEast, Europe, Africa);
    DisjointUnion(Asia + MiddleEast + Europe, NorthAmerica, Africa);
    DisjointUnion(Asia + MiddleEast + Europe + NorthAmerica, SouthAmerica, Africa);
    DistinctConcat(Asia + MiddleEast + Europe + NorthAmerica + SouthAmerica, Africa);
    OceaniaWellFormed();
    DisjointAsiaOceania();
    DisjointMiddleEastOceania();
    DisjointEuropeOceania();
    DisjointNorthAmericaOceania();
    DisjointSouthAmericaOceania();
    DisjointAfricaOceania();
    DisjointUnion(Asia, MiddleEast, Oceania);
    DisjointUnion(Asia + MiddleEast, Europe, Oceania);
    DisjointUnion(Asia + MiddleEast + Europe, NorthAmerica, Oceania);
    DisjointUnion(Asia + MiddleEast + Europe + NorthAmerica, SouthAmerica, Oceania);
    DisjointUnion(Asia + MiddleEast + Europe + NorthAmerica + SouthAmerica, Africa, Oceania);
    DistinctConcat(Asia + MiddleEast + Europe + NorthAmerica + SouthAmerica + Africa, Oceania);
  }

  /** The United States and Canada share the North American calling code. */
  lemma NorthAmericaSharesPlusOne()
    ensures exists i, j ::
              && 0 <= i < |AvailableCountries| && 0 <= j < |AvailableCountries|
              && AvailableCountries[i].code == "US" && AvailableCountries[j].code == "CA"
              && AvailableCountries[i].dialCode == "+1" && AvailableCountries[j].dialCode == "+1"
  {
    var before := Asia + MiddleEast + Europe;
    var after := SouthAmerica + Africa + Oceania;
    assert AvailableCountries == before + NorthAmerica + after;
    var k := |before|;
    assert AvailableCountries[k] == NorthAmerica[0];
    assert AvailableCountries[k + 1] == NorthAmerica[1];
  }

  // ---------------------------------------------------------------------
  // Lookup and the country-button label

  /** `this.countryCode || 'ID'`: the code the field starts from. */
  function InitialCode(countryCode: string): (r: string)
    ensures countryCode == [] ==> r == "ID"
    ensures countryCode != [] ==> r == countryCode
  {
    if countryCode == [] then "ID" else countryCode
  }

  /** The text of the country button: the flag and calling code of the
      table entry with that code, or the raw code when the table has none. */
  function CountryLabel(code: string): (r: string)
    ensures forall i :: 0 <= i < |AvailableCountries| && AvailableCountries[i].code == code
              && (forall j :: 0 <= j < i ==> AvailableCountries[j].code != code)
              ==> r == AvailableCountries[i].flag + " " + AvailableCountries[i].dialCode
    ensures (forall i :: 0 <= i < |AvailableCountries| ==> AvailableCountries[i].code != code)
              ==> r == code
  {
    match FindFirst(AvailableCountries, (c: CountryInfo) => c.code == code)
    case None => code
    case Some(i) => AvailableCountries[i].flag + " " + AvailableCountries[i].dialCode
  }

  /** Since the codes are distinct, every entry of the table labels the
      button with its own flag and calling code. */
  lemma LabelOfEntry(i: nat)
    requires i < |AvailableCountries|
    ensures CountryLabel(AvailableCountries[i].code)
            == AvailableCountries[i].flag + " " + AvailableCountries[i].dialCode
  {
    TableCodesDistinct();
  }

  /** A code outside the table labels the button with itself. */
  lemma LabelOfUnknownCode(code: string)
    requires forall c :: c in AvailableCountries ==> c.code != code
    ensures CountryLabel(code) == code
  {
    assert forall i :: 0 <= i < |AvailableCountries| ==> AvailableCountries[i] in AvailableCountries;
  }
}
