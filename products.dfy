/**
  The product catalog of src/data/products.ts: six products, each with an id,
  a name and its list of features. The icon and the image of each product
  are presentation only and are not part of this model.
*/
module Products {
  import opened Wrappers

  datatype Product = Product(id: int, name: string, features: seq<string>)

  /** `products`, in array order. Each product's features are listed by position
      in a function of their own (below), so that a proof about one product does
      not have to take in the texts of all the others. */
  const Catalog: seq<Product> := [
    Product(1, "Corrosion Under Insulation (CUI) Coating", CuiFeatures()),
    Product(2, "METACARE - Innovative Solution", MetacareFeatures()),
    Product(3, "PPG PITT-CHAR NX Fire Protection", PittCharFeatures()),
    Product(4, "Sustainable Finish Solutions", SustainableFeatures()),
    Product(5, "Tank Linings", TankLiningFeatures()),
    Product(6, "Protective Coatings Solution", ProtectiveFeatures())
  ]

  // ----- feature lists ------------------------------------------------------

  function CuiFeatures(): (r: seq<string>)
    ensures |r| == 10
  {
    seq(10, i => CuiFeature(i))
  }

  function MetacareFeatures(): (r: seq<string>)
    ensures |r| == 12
  {
    seq(12, i => MetacareFeature(i))
  }

  function PittCharFeatures(): (r: seq<string>)
    ensures |r| == 12
  {
    seq(12, i => PittCharFeature(i))
  }

  function SustainableFeatures(): (r: seq<string>)
    ensures |r| == 12
  {
    seq(12, i => SustainableFeature(i))
  }

  function TankLiningFeatures(): (r: seq<string>)
    ensures |r| == 12
  {
    seq(12, i => TankLiningFeature(i))
  }

  function ProtectiveFeatures(): (r: seq<string>)
    ensures |r| == 13
  {
    seq(13, i => ProtectiveFeature(i))
  }

  /** The features of "Corrosion Under Insulation (CUI) Coating", by position. */
  function CuiFeature(i: int): string {
    match i
    case 0 => "Prevents corrosion under insulation in high-temperature environments"
    case 1 => "Suitable for surfaces operating between -40\U{B0}C to 250\U{B0}C"
    case 2 => "Provides long-term protection for pipelines, tanks, and equipment"
    case 3 => "Reduces maintenance costs and extends asset life"
    case 4 => "Compatible with various insulation materials"
    case 5 => "Fast-curing formulation for quick project turnaround"
    case 6 => "Excellent adhesion to steel substrates"
    case 7 => "Resistant to moisture ingress and chemical exposure"
    case 8 => "Compliant with international coating standards"
    case 9 => "Available in multiple thickness options for varying service conditions"
    case _ => ""
  }

  /** The features of "METACARE - Innovative Solution", by position. */
  function MetacareFeature(i: int): string {
    match i
    case 0 => "Advanced protective coating system for metal substrates"
    case 1 => "Provides superior corrosion resistance in harsh industrial environments"
    case 2 => "Suitable for refineries, petrochemical plants, and offshore structures"
    case 3 => "High build coating with excellent surface tolerance"
    case 4 => "UV resistant and color-stable formulation"
    case 5 => "Low VOC and environmentally compliant"
    case 6 => "Easy application with spray or brush methods"
    case 7 => "Fast drying and recoatable in short intervals"
    case 8 => "Excellent chemical and solvent resistance"
    case 9 => "Long-lasting protection reducing lifecycle costs"
    case 10 => "Compatible with existing coating systems"
    case 11 => "Proven performance in C3 to C5-M corrosivity categories"
    case _ => ""
  }

  /** The features of "PPG PITT-CHAR NX Fire Protection", by position. */
  function PittCharFeature(i: int): string {
    match i
    case 0 => "Intumescent fire protection coating for steel structures"
    case 1 => "Provides up to 120 minutes fire resistance rating"
    case 2 => "Expands when exposed to heat, creating an insulating char layer"
    case 3 => "Suitable for commercial buildings, industrial facilities, and infrastructure"
    case 4 => "Thin film application reduces structural load"
    case 5 => "Available in various colors for aesthetic finish"
    case 6 => "Complies with international fire safety standards (UL, BS, ASTM)"
    case 7 => "Can be applied on-site or off-site"
    case 8 => "Durable topcoat options for interior and exterior use"
    case 9 => "Minimal maintenance requirements"
    case 10 => "Tested and certified for different steel profiles and fire scenarios"
    case 11 => "Fast installation compared to traditional fire protection methods"
    case _ => ""
  }

  /** The features of "Sustainable Finish Solutions", by position. */
  function SustainableFeature(i: int): string {
    match i
    case 0 => "Eco-friendly coating solutions with reduced environmental impact"
    case 1 => "Low VOC and HAP-free formulations"
    case 2 => "Water-based and solvent-free options available"
    case 3 => "High-performance finishes for architectural and industrial applications"
    case 4 => "Excellent durability and weather resistance"
    case 5 => "Wide range of colors and gloss levels"
    case 6 => "Suitable for interior and exterior surfaces"
    case 7 => "Easy application and cleanup"
    case 8 => "Compliant with green building certifications (LEED, Green Guard)"
    case 9 => "Energy-efficient coatings with reflective properties"
    case 10 => "Long service life reducing repainting frequency"
    case 11 => "Recyclable and sustainable raw materials"
    case _ => ""
  }

  /** The features of "Tank Linings", by position. */
  function TankLiningFeature(i: int): string {
    match i
    case 0 => "Specialized coatings for potable water, wastewater, and chemical storage tanks"
    case 1 => "Complies with NSF/ANSI 61 for drinking water applications"
    case 2 => "High chemical resistance to acids, alkalis, and solvents"
    case 3 => "Prevents contamination and corrosion of stored liquids"
    case 4 => "Suitable for steel, concrete, and FRP tanks"
    case 5 => "Smooth, non-porous surface for easy cleaning"
    case 6 => "Long-term performance in immersed conditions"
    case 7 => "Available in epoxy, polyurethane, and polyurea systems"
    case 8 => "Fast cure options for quick return to service"
    case 9 => "Temperature resistance from -40\U{B0}C to 120\U{B0}C"
    case 10 => "Certified for food-grade and pharmaceutical applications"
    case 11 => "Expert application support and inspection services available"
    case _ => ""
  }

  /** The features of "Protective Coatings Solution", by position. */
  function ProtectiveFeature(i: int): string {
    match i
    case 0 => "Comprehensive range of industrial protective coatings"
    case 1 => "Suitable for steel structures, machinery, and equipment"
    case 2 => "High-performance epoxy, polyurethane, and acrylic systems"
    case 3 => "Excellent corrosion and abrasion resistance"
    case 4 => "Designed for extreme environments (marine, chemical, mining)"
    case 5 => "Multi-coat systems including primers, intermediates, and topcoats"
    case 6 => "Fast-drying and high-build formulations"
    case 7 => "Compatible with various surface preparation methods"
    case 8 => "UV stable and color-retentive finishes"
    case 9 => "Wide temperature service range"
    case 10 => "Certified to ISO 12944 and NORSOK standards"
    case 11 => "Technical support and customized solutions available"
    case 12 => "Proven track record in major industrial projects worldwide"
    case _ => ""
  }

  /** `products.find(p => p.id === id)`: the first product with that id. */
  function FindById(id: int): (r: Option<Product>)
    ensures r.Some? ==> r.value.id == id && r.value in Catalog
    ensures r.None? <==> forall i | 0 <= i < |Catalog| :: Catalog[i].id != id
    ensures r.Some? ==> exists i | 0 <= i < |Catalog| :: Catalog[i] == r.value && forall j | 0 <= j < i :: Catalog[j].id != id
  {
    FindIn(Catalog, id)
  }

  /** The first product of `list` with that id. */
  function FindIn(list: seq<Product>, id: int): (r: Option<Product>)
    ensures r.Some? ==> r.value.id == id && r.value in list
    ensures r.None? <==> forall i | 0 <= i < |list| :: list[i].id != id
    ensures r.Some? ==> exists i | 0 <= i < |list| :: list[i] == r.value && forall j | 0 <= j < i :: list[j].id != id
  {
    if list == [] then None
    else if list[0].id == id then Some(list[0])
    else
      var r := FindIn(list[1..], id);
      if r.Some? then
        var k :| 0 <= k < |list[1..]| && list[1..][k] == r.value && forall j | 0 <= j < k :: list[1..][j].id != id;
        assert list[k + 1] == r.value && forall j | 0 <= j < k + 1 :: list[j].id != id;
        r
      else r
  }

  /** Six products, numbered 1..6 in array order. */
  lemma CatalogIds()
    ensures |Catalog| == 6
    ensures forall i | 0 <= i < |Catalog| :: Catalog[i].id == i + 1
  {
  }

  /** No two products share an id. */
  lemma IdsDistinct(i: int, j: int)
    requires 0 <= i < |Catalog| && 0 <= j < |Catalog| && i != j
    ensures Catalog[i].id != Catalog[j].id
  {
    CatalogIds();
  }

  /** Looking up id k gives the product at position k - 1 when k is one of
      1..6, and nothing for any other id. */
  lemma FindByIdRule(k: int)
    ensures 1 <= k <= 6 ==> FindById(k) == Some(Catalog[k - 1])
    ensures !(1 <= k <= 6) ==> FindById(k) == None
  {
    CatalogIds();
    if 1 <= k <= 6 {
      assert Catalog[k - 1].id == k;
      var r := FindById(k);
      var i :| 0 <= i < |Catalog| && Catalog[i] == r.value;
      assert i == k - 1;
    }
  }

  /** The feature counts, in catalog order. */
  lemma FeatureCounts()
    ensures |Catalog| == 6
    ensures |Catalog[0].features| == 10 && |Catalog[1].features| == 12 && |Catalog[2].features| == 12
    ensures |Catalog[3].features| == 12 && |Catalog[4].features| == 12 && |Catalog[5].features| == 13
  {
  }

  /** Every product has at least ten features, so a three-feature preview is
      always full. */
  lemma AtLeastTenFeatures(p: Product)
    requires p in Catalog
    ensures |p.features| >= 10
    ensures |p.features[..3]| == 3
  {
    FeatureCounts();
  }

  /** No two products share a name. */
  lemma NamesDistinct(i: int, j: int)
    requires 0 <= i < |Catalog| && 0 <= j < |Catalog| && i != j
    ensures Catalog[i].name != Catalog[j].name
  {
    // The first letters and the lengths of the names tell them apart.
    var heads := "CMPSTP";
    var lengths := [40, 30, 32, 28, 12, 28];
    assert forall k | 0 <= k < 6 :: Catalog[k].name[0] == heads[k] && |Catalog[k].name| == lengths[k];
  }
}
