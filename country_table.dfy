/**
 * The country table of `CountryCodes` (sire_converter.py lines 93-390): every entry
 * as the source declares it, region by region, in declaration order.
 */
module CountryTable {
  import opened Tables

  /** Entries for North America (sire_converter.py lines 95-101). */
  const NorthAmerica: Table := [
    ("ESTADOS UNIDOS", 249), ("UNITED STATES", 249), ("UNITED STATES OF AMERICA", 249),
    ("USA", 249), ("US", 249), ("AMERICA", 249), ("E.E.U.U.", 249), ("EEUU", 249),
    ("CANADA", 149), ("CANAD\U{C1}", 149), ("CAN", 149), ("MEXICO", 493),
    ("M\U{C9}XICO", 493), ("MEX", 493), ("GROENLANDIA", 315), ("GREENLAND", 315),
    ("BERMUDAS", 90), ("BERMUDA", 90), ("SAN PEDRO Y MIQUELON", 682),
    ("SAINT PIERRE AND MIQUELON", 682)
  ]

  /** Entries for Central America (sire_converter.py lines 104-110). */
  const CentralAmerica: Table := [
    ("GUATEMALA", 317), ("GTM", 317), ("HONDURAS", 345), ("HND", 345),
    ("EL SALVADOR", 242), ("SLV", 242), ("NICARAGUA", 521), ("NIC", 521),
    ("COSTA RICA", 196), ("CRI", 196), ("PANAMA", 580), ("PANAM\U{C1}", 580), ("PAN", 580),
    ("BELICE", 88), ("BELIZE", 88), ("BLZ", 88)
  ]

  /** Entries for the Caribbean (sire_converter.py lines 113-138). */
  const Caribbean: Table := CaribbeanFirst + CaribbeanSecond

  /** The first part of the entries for the Caribbean (sire_converter.py lines 113-126). */
  const CaribbeanFirst: Table := [
    ("CUBA", 199), ("CUB", 199), ("HAITI", 341), ("HAIT\U{CD}", 341), ("HTI", 341),
    ("REPUBLICA DOMINICANA", 647), ("DOMINICAN REPUBLIC", 647), ("DOM", 647),
    ("PUERTO RICO", 611), ("PRI", 611), ("JAMAICA", 391), ("JAM", 391),
    ("TRINIDAD Y TOBAGO", 815), ("TRINIDAD AND TOBAGO", 815), ("TTO", 815), ("BAHAMAS", 77),
    ("BAHAMAS ISLANDS", 77), ("BHS", 77), ("BARBADOS", 83), ("BRB", 83),
    ("ANTIGUA Y BARBUDA", 43), ("ANTIGUA AND BARBUDA", 43), ("ATG", 43), ("DOMINICA", 235),
    ("DMA", 235), ("GRANADA", 297), ("GRENADA", 297), ("GRD", 297),
    ("SAN CRISTOBAL Y NIEVES", 695), ("SAINT KITTS AND NEVIS", 695), ("KNA", 695),
    ("SANTA LUCIA", 715), ("SAINT LUCIA", 715), ("LCA", 715),
    ("SAN VICENTE Y LAS GRANADINAS", 705), ("SAINT VINCENT AND THE GRENADINES", 705)
  ]

  /** The rest of the entries for the Caribbean (sire_converter.py lines 126-138). */
  const CaribbeanSecond: Table := [
    ("VCT", 705), ("ARUBA", 67), ("ABW", 67), ("ANTILLAS HOLANDESAS", 921),
    ("NETHERLANDS ANTILLES", 921), ("ANT", 921), ("ANTILLAS NEERLANDESAS", 44),
    ("CURACAO", 201), ("CURAZAO", 201), ("ANGUILA", 895), ("ANGUILLA", 895), ("AIA", 895),
    ("ISLAS VIRGENES BRITANICAS", 866), ("BRITISH VIRGIN ISLANDS", 866), ("VGB", 866),
    ("ISLAS VIRGENES ESTADOUNIDENSES", 867), ("US VIRGIN ISLANDS", 867), ("VIR", 867),
    ("ISLAS CAIMAN", 137), ("CAYMAN ISLANDS", 137), ("CYM", 137), ("MONTSERRAT", 501),
    ("MONSERRAT", 501), ("MSR", 501), ("ISLAS TURCAS Y CAICOS", 900),
    ("TURKS AND CAICOS ISLANDS", 900), ("TCA", 900), ("GUADALUPE", 338), ("GUADELOUPE", 338),
    ("GLP", 338), ("MARTINICA", 490), ("MARTINIQUE", 490), ("MTQ", 490)
  ]

  /** Entries for South America (sire_converter.py lines 141-153). */
  const SouthAmerica: Table := [
    ("COLOMBIA", 169), ("COL", 169), ("VENEZUELA", 850), ("VEN", 850), ("ECUADOR", 239),
    ("ECU", 239), ("PERU", 589), ("PER\U{DA}", 589), ("PER", 589), ("BOLIVIA", 97),
    ("BOL", 97), ("CHILE", 211), ("CHL", 211), ("ARGENTINA", 63), ("ARG", 63),
    ("URUGUAY", 845), ("URY", 845), ("PARAGUAY", 586), ("PRY", 586), ("BRASIL", 105),
    ("BRAZIL", 105), ("BRA", 105), ("GUYANA", 325), ("GUY", 325), ("SURINAM", 770),
    ("SURINAME", 770), ("SUR", 770), ("GUAYANA FRANCESA", 340), ("FRENCH GUIANA", 340),
    ("GUF", 340)
  ]

  /** Entries for Western Europe (sire_converter.py lines 156-174). */
  const WesternEurope: Table := WesternEuropeFirst + WesternEuropeSecond

  /** The first part of the entries for Western Europe (sire_converter.py lines 156-165). */
  const WesternEuropeFirst: Table := [
    ("ESPANA", 245), ("ESPA\U{D1}A", 245), ("SPAIN", 245), ("ESP", 245), ("FRANCIA", 275),
    ("FRANCE", 275), ("FRA", 275), ("ALEMANIA", 23), ("GERMANY", 23), ("DEU", 23),
    ("GER", 23), ("ITALIA", 386), ("ITALY", 386), ("ITA", 386), ("PORTUGAL", 607),
    ("PRT", 607), ("REINO UNIDO", 628), ("UNITED KINGDOM", 628), ("UK", 628), ("GBR", 628),
    ("ENGLAND", 628), ("GREAT BRITAIN", 628), ("GRAN BRETA\U{D1}A", 628),
    ("INGLATERRA", 628), ("IRLANDA", 375), ("IRELAND", 375), ("IRL", 375), ("EIRE", 375),
    ("PAISES BAJOS", 573), ("NETHERLANDS", 573), ("HOLANDA", 573), ("NLD", 573)
  ]

  /** The rest of the entries for Western Europe (sire_converter.py lines 165-174). */
  const WesternEuropeSecond: Table := [
    ("BELGICA", 87), ("B\U{C9}LGICA", 87), ("BELGIUM", 87), ("BEL", 87),
    ("LUXEMBURGO", 442), ("LUXEMBOURG", 442), ("LUX", 442), ("SUIZA", 767),
    ("SWITZERLAND", 767), ("CHE", 767), ("AUSTRIA", 72), ("AUT", 72),
    ("LIECHTENSTEIN", 441), ("LIE", 441), ("MONACO", 496), ("MCO", 496), ("ANDORRA", 37),
    ("AND", 37), ("SAN MARINO", 701), ("SMR", 701), ("CIUDAD DEL VATICANO", 717),
    ("VATICAN", 717), ("VATICANO", 717), ("SANTA SEDE", 717), ("VAT", 717),
    ("GIBRALTAR", 293), ("GIB", 293)
  ]

  /** Entries for the Nordic countries (sire_converter.py lines 177-184). */
  const NordicEurope: Table := [
    ("SUECIA", 764), ("SWEDEN", 764), ("SWE", 764), ("NORUEGA", 538), ("NORWAY", 538),
    ("NOR", 538), ("DINAMARCA", 232), ("DENMARK", 232), ("DNK", 232), ("FINLANDIA", 271),
    ("FINLAND", 271), ("FIN", 271), ("ISLANDIA", 379), ("ICELAND", 379), ("ISL", 379),
    ("ISLAS FEROE", 390), ("FAROE ISLANDS", 390), ("FRO", 390), ("ALAND", 384),
    ("SVALBARD Y JAN MAYEN", 730)
  ]

  /** Entries for Eastern Europe (sire_converter.py lines 187-196). */
  const EasternEurope: Table := [
    ("RUSIA", 673), ("RUSSIA", 673), ("RUSSIAN FEDERATION", 673), ("RUS", 673),
    ("UCRANIA", 830), ("UKRAINE", 830), ("UKR", 830), ("BIELORRUSIA", 85), ("BELARUS", 85),
    ("BLR", 85), ("POLONIA", 603), ("POLAND", 603), ("POL", 603), ("REPUBLICA CHECA", 207),
    ("CZECH REPUBLIC", 207), ("CZECHIA", 207), ("CZE", 207), ("ESLOVAQUIA", 247),
    ("SLOVAKIA", 247), ("SVK", 247), ("HUNGRIA", 355), ("HUNGARY", 355), ("HUN", 355),
    ("RUMANIA", 670), ("ROMANIA", 670), ("ROU", 670), ("BULGARIA", 111), ("BGR", 111),
    ("MOLDAVIA", 495), ("MOLDOVA", 495), ("MDA", 495)
  ]

  /** Entries for South-eastern Europe (the Balkans) (sire_converter.py lines 199-209). */
  const Balkans: Table := [
    ("GRECIA", 301), ("GREECE", 301), ("GRC", 301), ("TURQUIA", 827),
    ("TURQU\U{CD}A", 827), ("TURKEY", 827), ("TUR", 827), ("CROACIA", 198),
    ("CROATIA", 198), ("HRV", 198), ("SERBIA", 729), ("SRB", 729), ("BOSNIA", 99),
    ("BOSNIA HERZEGOVINA", 99), ("BOSNIA AND HERZEGOVINA", 99), ("BIH", 99),
    ("MONTENEGRO", 499), ("MNE", 499), ("ESLOVENIA", 248), ("SLOVENIA", 248), ("SVN", 248),
    ("MACEDONIA", 448), ("ARY MACEDONIA", 448), ("NORTH MACEDONIA", 448), ("MKD", 448),
    ("REPUBLICA DE MACEDONIA", 642), ("ALBANIA", 17), ("ALB", 17), ("KOSOVO", 414)
  ]

  /** Entries for the Baltic states (sire_converter.py lines 212-214). */
  const BalticEurope: Table := [
    ("LITUANIA", 429), ("LITHUANIA", 429), ("LTU", 429), ("LETONIA", 428), ("LATVIA", 428),
    ("LVA", 428), ("ESTONIA", 251), ("EST", 251)
  ]

  /** Entries for the Caucasus (sire_converter.py lines 217-219). */
  const Caucasus: Table := [
    ("GEORGIA", 287), ("GEO", 287), ("ARMENIA", 65), ("ARM", 65), ("AZERBAIYAN", 75),
    ("AZERBAIJAN", 75), ("AZE", 75)
  ]

  /** Entries for East Asia (sire_converter.py lines 222-229). */
  const EastAsia: Table := [
    ("CHINA", 215), ("CHN", 215), ("JAPON", 399), ("JAP\U{D3}N", 399), ("JAPAN", 399),
    ("JPN", 399), ("COREA DEL SUR", 190), ("SOUTH KOREA", 190), ("KOREA", 190),
    ("KOR", 190), ("COREA DEL NORTE", 651), ("NORTH KOREA", 651), ("PRK", 651),
    ("TAIWAN", 774), ("TWN", 774), ("HONG KONG", 347), ("HKG", 347), ("MACAO", 447),
    ("MACAU", 447), ("MAC", 447), ("MONGOLIA", 497), ("MNG", 497)
  ]

  /** Entries for South-east Asia (sire_converter.py lines 232-242). */
  const SoutheastAsia: Table := [
    ("TAILANDIA", 776), ("THAILAND", 776), ("THA", 776), ("VIETNAM", 855),
    ("VIET NAM", 855), ("VNM", 855), ("FILIPINAS", 267), ("PHILIPPINES", 267),
    ("PHL", 267), ("INDONESIA", 365), ("IDN", 365), ("MALASIA", 455), ("MALAYSIA", 455),
    ("MYS", 455), ("SINGAPUR", 741), ("SINGAPORE", 741), ("SGP", 741), ("MYANMAR", 507),
    ("BIRMANIA", 507), ("BURMA", 507), ("MMR", 507), ("CAMBOYA", 141), ("CAMBODIA", 141),
    ("KAMPUCHEA", 141), ("KHM", 141), ("LAOS", 420), ("LAO", 420), ("BRUNEI", 108),
    ("BRUNEI DARUSSALAM", 108), ("BRN", 108), ("TIMOR ORIENTAL", 783), ("EAST TIMOR", 783),
    ("TIMOR LESTE", 783), ("TLS", 783)
  ]

  /** Entries for South Asia (sire_converter.py lines 245-252). */
  const SouthAsia: Table := [
    ("INDIA", 361), ("IND", 361), ("PAKISTAN", 576), ("PAK", 576), ("BANGLADESH", 81),
    ("BGD", 81), ("SRI LANKA", 750), ("LKA", 750), ("CEILAN", 750), ("NEPAL", 517),
    ("NPL", 517), ("BUTAN", 117), ("BHUTAN", 117), ("BTN", 117), ("MALDIVAS", 461),
    ("MALDIVES", 461), ("MDV", 461), ("AFGANISTAN", 13), ("AFGHANISTAN", 13), ("AFG", 13)
  ]

  /** Entries for Central Asia (sire_converter.py lines 255-259). */
  const CentralAsia: Table := [
    ("KAZAJISTAN", 406), ("KAZAKHSTAN", 406), ("KAZ", 406), ("UZBEKISTAN", 847),
    ("UZB", 847), ("TURKMENISTAN", 829), ("TKM", 829), ("KIRGUISTAN", 412),
    ("KYRGYZSTAN", 412), ("KGZ", 412), ("TAYIKISTAN", 775), ("TAJIKISTAN", 775),
    ("TJK", 775)
  ]

  /** Entries for the Middle East (sire_converter.py lines 262-276). */
  const MiddleEast: Table := [
    ("ISRAEL", 383), ("ISR", 383), ("PALESTINA", 600), ("PALESTINE", 600), ("PSE", 600),
    ("LIBANO", 431), ("LEBANON", 431), ("LBN", 431), ("SIRIA", 744), ("SYRIA", 744),
    ("SYR", 744), ("JORDANIA", 403), ("JORDAN", 403), ("JOR", 403), ("IRAQ", 369),
    ("IRQ", 369), ("IRAK", 369), ("IRAN", 372), ("IRN", 372), ("ARABIA SAUDITA", 55),
    ("SAUDI ARABIA", 55), ("SAU", 55), ("EMIRATOS ARABES UNIDOS", 244),
    ("UNITED ARAB EMIRATES", 244), ("UAE", 244), ("ARE", 244), ("KUWAIT", 413),
    ("KWT", 413), ("QATAR", 618), ("QAT", 618), ("BAHREIN", 80), ("BAHRAIN", 80),
    ("BHR", 80), ("OMAN", 542), ("OMN", 542), ("YEMEN", 880), ("YEM", 880),
    ("CHIPRE", 221), ("CYPRUS", 221), ("CYP", 221)
  ]

  /** Entries for Oceania (sire_converter.py lines 279-305). */
  const Oceania: Table := OceaniaFirst + OceaniaSecond

  /** The first part of the entries for Oceania (sire_converter.py lines 279-293). */
  const OceaniaFirst: Table := [
    ("AUSTRALIA", 69), ("AUS", 69), ("NUEVA ZELANDA", 540), ("NEW ZEALAND", 540),
    ("NZL", 540), ("PAPUA NUEVA GUINEA", 582), ("PAPUA NEW GUINEA", 582), ("PNG", 582),
    ("FIYI", 255), ("FIJI", 255), ("FJI", 255), ("ISLAS SALOMON", 395),
    ("SOLOMON ISLANDS", 395), ("SLB", 395), ("VANUATU", 849), ("VUT", 849), ("SAMOA", 699),
    ("WSM", 699), ("SAMOA AMERICANA", 698), ("AMERICAN SAMOA", 698), ("ASM", 698),
    ("TONGA", 810), ("TON", 810), ("KIRIBATI", 411), ("KIR", 411), ("TUVALU", 828),
    ("TUV", 828), ("NAURU", 508), ("NRU", 508), ("PALAOS", 578), ("PALAU", 578),
    ("PLW", 578), ("MICRONESIA", 503), ("FSM", 503), ("ISLAS MARSHALL", 475)
  ]

  /** The rest of the entries for Oceania (sire_converter.py lines 293-305). */
  const OceaniaSecond: Table := [
    ("MARSHALL ISLANDS", 475), ("MHL", 475), ("GUAM", 339), ("GUM", 339),
    ("ISLAS MARIANAS DEL NORTE", 392), ("NORTHERN MARIANA ISLANDS", 392), ("MNP", 392),
    ("NUEVA CALEDONIA", 539), ("NEW CALEDONIA", 539), ("NCL", 539),
    ("POLINESIA FRANCESA", 609), ("FRENCH POLYNESIA", 609), ("PYF", 609),
    ("WALLIS Y FUTUNA", 394), ("WALLIS AND FUTUNA", 394), ("WLF", 394), ("ISLAS COOK", 388),
    ("COOK ISLANDS", 388), ("COK", 388), ("NIUE", 531), ("NIU", 531), ("TOKELAU", 812),
    ("TKL", 812), ("ISLAS PITCAIRN", 381), ("PITCAIRN", 381), ("PCN", 381),
    ("NORFOLK", 163), ("NORFOLK ISLAND", 163), ("NFK", 163), ("ISLAS COCOS", 178),
    ("COCOS KEELING ISLANDS", 178), ("CCK", 178), ("ISLA DE NAVIDAD", 387),
    ("CHRISTMAS ISLAND", 387), ("CXR", 387)
  ]

  /** Entries for North Africa (sire_converter.py lines 308-314). */
  const NorthAfrica: Table := [
    ("EGIPTO", 240), ("EGYPT", 240), ("EGY", 240), ("LIBIA", 438), ("LIBYA", 438),
    ("LBY", 438), ("TUNEZ", 820), ("TUNISIA", 820), ("TUN", 820), ("ARGELIA", 59),
    ("ALGERIA", 59), ("DZA", 59), ("MARRUECOS", 474), ("MOROCCO", 474), ("MAR", 474),
    ("SAHARA OCCIDENTAL", 680), ("WESTERN SAHARA", 680), ("ESH", 680), ("SUDAN", 759),
    ("SDN", 759)
  ]

  /** Entries for West Africa (sire_converter.py lines 317-332). */
  const WestAfrica: Table := [
    ("NIGERIA", 525), ("NGA", 525), ("NIGER", 528), ("NER", 528), ("GHANA", 289),
    ("GHA", 289), ("COSTA DE MARFIL", 193), ("COTE D'IVOIRE", 193), ("IVORY COAST", 193),
    ("CIV", 193), ("SENEGAL", 728), ("SEN", 728), ("MALI", 464), ("MLI", 464),
    ("BURKINA FASO", 113), ("BFA", 113), ("GUINEA", 329), ("GIN", 329),
    ("GUINEA BISSAU", 334), ("GUINEA-BISSAU", 334), ("GNB", 334), ("SIERRA LEONA", 735),
    ("SIERRA LEONE", 735), ("SLE", 735), ("LIBERIA", 434), ("LBR", 434), ("TOGO", 800),
    ("TGO", 800), ("BENIN", 89), ("BEN", 89), ("MAURITANIA", 488), ("MRT", 488),
    ("CABO VERDE", 127), ("CAPE VERDE", 127), ("CPV", 127), ("GAMBIA", 285), ("GMB", 285)
  ]

  /** Entries for Central Africa (sire_converter.py lines 335-343). */
  const CentralAfrica: Table := [
    ("CAMERUN", 145), ("CAMEROON", 145), ("CMR", 145), ("REPUBLICA CENTROAFRICANA", 998),
    ("CENTRAL AFRICAN REPUBLIC", 998), ("CAF", 998), ("CHAD", 151), ("TCD", 151),
    ("REPUBLICA DEL CONGO", 170), ("CONGO", 170), ("COG", 170),
    ("REPUBLICA DEMOCRATICA DEL CONGO", 177), ("ZAIRE", 177), ("COD", 177),
    ("GUINEA ECUATORIAL", 331), ("EQUATORIAL GUINEA", 331), ("GNQ", 331), ("GABON", 281),
    ("GAB", 281), ("SANTO TOME Y PRINCIPE", 720), ("SAO TOME AND PRINCIPE", 720),
    ("STP", 720), ("ANGOLA", 40), ("AGO", 40)
  ]

  /** Entries for East Africa (sire_converter.py lines 346-360). */
  const EastAfrica: Table := [
    ("KENIA", 410), ("KENYA", 410), ("KEN", 410), ("ETIOPIA", 253), ("ETHIOPIA", 253),
    ("ETH", 253), ("TANZANIA", 780), ("TZA", 780), ("UGANDA", 833), ("UGA", 833),
    ("RWANDA", 675), ("RUANDA", 675), ("RWA", 675), ("BURUNDI", 115), ("BDI", 115),
    ("SOMALIA", 748), ("SOM", 748), ("YIBUTI", 920), ("DJIBOUTI", 920), ("DJI", 920),
    ("ERITREA", 246), ("ERI", 246), ("SEYCHELLES", 731), ("SYC", 731), ("MAURICIO", 485),
    ("MAURITIUS", 485), ("MUS", 485), ("COMORAS", 171), ("COMOROS", 171), ("COM", 171),
    ("MADAGASCAR", 450), ("MDG", 450), ("REUNION", 650), ("REU", 650), ("MAYOTTE", 494)
  ]

  /** Entries for Southern Africa (sire_converter.py lines 363-371). */
  const SouthernAfrica: Table := [
    ("SUDAFRICA", 756), ("SUD\U{C1}FRICA", 756), ("SOUTH AFRICA", 756), ("ZAF", 756),
    ("NAMIBIA", 512), ("NAM", 512), ("BOTSWANA", 101), ("BWA", 101), ("ZIMBABUE", 892),
    ("ZIMBABWE", 892), ("ZWE", 892), ("ZAMBIA", 890), ("ZMB", 890), ("MOZAMBIQUE", 505),
    ("MOZ", 505), ("MALAWI", 458), ("MWI", 458), ("LESOTHO", 426), ("LSO", 426),
    ("SWAZILANDIA", 773), ("ESWATINI", 773), ("SWAZILAND", 773), ("SWZ", 773)
  ]

  /** Entries for territories and other entries (sire_converter.py lines 374-384). */
  const Territories: Table := [
    ("ISLAS ULTRAMARINAS DE ESTADOS UNIDOS", 200),
    ("TERRITORIO BRITANICO DEL OCEANO INDICO", 779), ("BRITISH INDIAN OCEAN TERRITORY", 779),
    ("IOT", 779), ("SANTA HELENA", 708), ("SAINT HELENA", 708), ("SHN", 708),
    ("ISLA DE MAN", 380), ("ISLE OF MAN", 380), ("IMN", 380), ("JERSEY", 160),
    ("JEY", 160), ("GUERNSEY", 146), ("GGY", 146), ("ANTARTIDA", 143), ("ANTARCTICA", 143),
    ("ATA", 143), ("ISLA BOUVET", 173), ("BOUVET ISLAND", 173),
    ("ISLAS HEARD Y MCDONALD", 186), ("ISLAS MALVINAS", 191), ("FALKLAND ISLANDS", 191),
    ("FLK", 191), ("TERRITORIOS AUSTRALES FRANCESES", 781)
  ]

  /** Entries for international organisations (sire_converter.py lines 387-389). */
  const International: Table := [
    ("INTERPOL", 980), ("NACIONES UNIDAS", 981), ("NO APLICA", 0)
  ]

  /** `CountryCodes.CODES` in declaration order. */
  const Codes: Table :=
    NorthAmerica + CentralAmerica + Caribbean + SouthAmerica + WesternEurope + NordicEurope
    + EasternEurope + Balkans + BalticEurope + Caucasus + EastAsia + SoutheastAsia + SouthAsia
    + CentralAsia + MiddleEast + Oceania + NorthAfrica + WestAfrica + CentralAfrica + EastAfrica
    + SouthernAfrica + Territories + International
}
