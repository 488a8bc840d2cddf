/**
  The product dialog of src/components/ProductDetailModal.tsx: nothing for
  no product; otherwise the feature count, the numbered feature badges, and
  a download with a short footer whose filename uses `_` for whitespace runs.
*/
module ProductDetailModal {
  import opened Wrappers
  import opened Strings
  import opened Products
  import opened ProductText

  /** One feature card: its badge number and its text. */
  datatype Badge = Badge(number: nat, feature: string)

  /** What the dialog renders. */
  datatype Rendering = Nothing | Dialog(name: string, featureCount: nat, badges: seq<Badge>)

  /** One badge per feature. */
  // The ensures clauses below only expose the body to the proofs; the meaning is stated by `BadgesNumbered`.
  function Badges(features: seq<string>): (r: seq<Badge>)
    ensures |r| == |features|
    ensures forall i | 0 <= i < |features| :: r[i] == Badge(i + 1, features[i])
  {
    seq(|features|, i requires 0 <= i < |features| => Badge(i + 1, features[i]))
  }

  /** What the dialog renders for an optional product. */
  // The ensures clauses below only expose the body to the proofs; the meaning is stated by `BadgesNumbered`.
  function Render(product: Option<Product>): (r: Rendering)
    ensures r.Nothing? <==> product.None?
    ensures product.Some? ==> r.name == product.value.name && r.featureCount == |product.value.features|
    ensures product.Some? ==> r.badges == Badges(product.value.features)
  {
    match product
    case None => Nothing
    case Some(p) => Dialog(p.name, |p.features|, Badges(p.features))
  }

  /** The badges are numbered 1, 2, ... in feature order, and there are as
      many as the header's count. */
  lemma BadgesNumbered(p: Product)
    ensures var r := Render(Some(p));
      && |r.badges| == r.featureCount
      && forall i | 0 <= i < |r.badges| :: r.badges[i].number == i + 1 && r.badges[i].feature == p.features[i]
  {
  }

  const ModalFooter := "Asian Paints PPG Private Limited\nwww.asianpaintsppg.com"

  /** `handleDownload`: the text of the file. */
  function DownloadContent(p: Product): string {
    DownloadText(p.name, p.features, ModalFooter)
  }

  /** `handleDownload`: the name of the file, whitespace runs becoming `_`. */
  function Filename(p: Product): (r: string)
    ensures r == Slug(p.name, '_') + ".txt"
    ensures NoWhitespace(Slug(p.name, '_'))
  {
    SlugNoWhitespace(p.name, '_');
    Slug(p.name, '_') + ".txt"
  }

  /** The file reads like the product page's download, but ends in the
      short footer. */
  lemma DownloadLines(p: Product)
    requires |p.features| >= 1
    requires '\n' !in p.name && forall i | 0 <= i < |p.features| :: '\n' !in p.features[i]
    ensures Split(DownloadContent(p), '\n') == [p.name, ""] + NumberedLines(p.features) + [""] + Split(ModalFooter, '\n')
  {
    DownloadTextLines(p.name, p.features, ModalFooter);
  }
}
