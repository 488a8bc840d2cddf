/**
  The product page of src/pages/ProductDetailPage.tsx: which product the
  route shows, the downloadable text and its filename, and the page's
  description tags. The route parameter is taken as already converted to a
  number.
*/
module ProductDetailPage {
  import opened Wrappers
  import opened Strings
  import opened Products
  import opened ProductText

  /** What the page does for a route: redirect to `/404` rendering nothing,
      or show a product. */
  datatype View = Redirect404 | Show(product: Product)

  function ViewFor(productId: int): (v: View)
    ensures v.Show? ==> v.product in Catalog && v.product.id == productId
    ensures v.Redirect404? <==> forall i | 0 <= i < |Catalog| :: Catalog[i].id != productId
  {
    match FindById(productId)
    case None => Redirect404
    case Some(p) => Show(p)
  }

  /** Routes 1..6 show the product at that position; every other number
      redirects. */
  lemma ViewRule(k: int)
    ensures 1 <= k <= 6 ==> ViewFor(k) == Show(Catalog[k - 1])
    ensures !(1 <= k <= 6) ==> ViewFor(k) == Redirect404
  {
    FindByIdRule(k);
  }

  const PageFooter :=
    "Asian Paints PPG Private Limited\n"
    + "Plot No. 5, Gaiwadi Industrial Estate, S V Road, Goregaon (West), Mumbai 400 062\n"
    + "Tel: +91 (22) 6218 2700\n"
    + "Email: customercare.apppg@asianpaintsppg.com\n"
    + "Website: www.asianpaintsppg.com"

  /** `handleDownload`: the text of the file. */
  function DownloadContent(p: Product): string {
    DownloadText(p.name, p.features, PageFooter)
  }

  /** `handleDownload`: the name of the file, whitespace runs becoming `-`. */
  function Filename(p: Product): (r: string)
    ensures NoWhitespace(r)
    ensures r == Slug(p.name, '-') + ".txt"
  {
    SlugNoWhitespace(p.name, '-');
    var stem := Slug(p.name, '-');
    assert NoWhitespace(".txt");
    assert forall i | 0 <= i < |stem + ".txt"| :: (stem + ".txt")[i] == if i < |stem| then stem[i] else ".txt"[i - |stem|];
    stem + ".txt"
  }

  /** `features.slice(0, 3)`. */
  function Take(xs: seq<string>, n: nat): (r: seq<string>)
    ensures r <= xs
    ensures |r| == if |xs| <= n then |xs| else n
  {
    if |xs| <= n then xs else xs[..n]
  }

  /** The `description` meta tag: the first three features joined by `. `. */
  function MetaDescription(p: Product): string {
    Join(". ", Take(p.features, 3))
  }

  /** The `og:description` meta tag: the first feature, absent without one. */
  function OgDescription(p: Product): (r: Option<string>)
    ensures r.Some? <==> |p.features| > 0
  {
    if |p.features| == 0 then None else Some(p.features[0])
  }

  /** With three features or more (every catalog product has ten or more, see
      `Products.AtLeastTenFeatures`), both tags are written out in full. */
  lemma Descriptions(p: Product)
    requires |p.features| >= 3
    ensures MetaDescription(p) == p.features[0] + ". " + p.features[1] + ". " + p.features[2]
    ensures OgDescription(p) == Some(p.features[0])
  {
    var f := p.features;
    assert Take(f, 3) == [f[0], f[1], f[2]];
    JoinThree(". ", f[0], f[1], f[2]);
  }

  lemma JoinThree(sep: string, a: string, b: string, c: string)
    ensures Join(sep, [a, b, c]) == a + sep + b + sep + c
  {
    assert [a, b, c][1..] == [b, c];
    assert [b, c][1..] == [c];
    assert Join(sep, [b, c]) == b + sep + c;
    assert Join(sep, [a, b, c]) == a + sep + (b + sep + c);
  }

  /** The downloaded file, line by line. */
  lemma DownloadLines(p: Product)
    requires |p.features| >= 1
    requires '\n' !in p.name && forall i | 0 <= i < |p.features| :: '\n' !in p.features[i]
    ensures Split(DownloadContent(p), '\n') == [p.name, ""] + NumberedLines(p.features) + [""] + Split(PageFooter, '\n')
  {
    DownloadTextLines(p.name, p.features, PageFooter);
  }
}
