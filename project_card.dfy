/**
 * The project card on the projects grid: which picture it shows, the
 * three-second auto-advance through the gallery (paused while hovered),
 * the slide dots, the first two skill tags and the badge.
 */
module ProjectCard {
  import opened Wrappers
  import opened CoreModels
  import ProjectModal

  const StockImage: string :=
    "https://" + "images.unsplash.com/photo-1555066931-4365d14bab8c?auto=format&fit=crop&w=800&q=80"

  /** The card picture: the current gallery image, else the featured image URL, else the stock photo. */
  function CardImage(p: Project, index: int): (src: string)
    requires |p.images| > 0 ==> 0 <= index < |p.images|
    ensures |p.images| > 0 ==> src == p.images[index].imageUrl
    ensures |p.images| == 0 && p.featuredImageUrl.Some? && p.featuredImageUrl.value != ""
            ==> src == p.featuredImageUrl.value
    ensures |p.images| == 0 && (p.featuredImageUrl.None? || p.featuredImageUrl.value == "")
            ==> src == StockImage
  {
    if |p.images| > 0 then p.images[index].imageUrl
    else if p.featuredImageUrl.Some? && p.featuredImageUrl.value != "" then p.featuredImageUrl.value
    else StockImage
  }

  /** With non-empty stored URLs the card never shows an empty source. */
  lemma CardImageNeverEmpty(p: Project, index: int)
    requires |p.images| > 0 ==> 0 <= index < |p.images|
    requires forall im | im in p.images :: im.imageUrl != ""
    ensures CardImage(p, index) != ""
  {
    if |p.images| > 0 {
      assert p.images[index] in p.images;
    }
  }

  /** The slide dots: none for a single picture, otherwise one per image, lit at the current one. */
  function Dots(n: nat, index: int): (dots: seq<bool>)
    ensures n <= 1 ==> dots == []
    ensures n > 1 ==> |dots| == n && forall i | 0 <= i < n :: dots[i] <==> i == index
  {
    if n <= 1 then [] else seq(n, i requires 0 <= i < n => i == index)
  }

  /** Exactly one dot is lit, the current one. */
  lemma OneDotLit(n: nat, index: int)
    requires n > 1 && 0 <= index < n
    ensures var dots := Dots(n, index);
            (set i | 0 <= i < n && dots[i]) == {index}
  {
  }

  /** The tags: the first two skills, in order. */
  function Tags(skills: seq<Skill>): (r: seq<Skill>)
    ensures |r| <= 2 && |r| <= |skills| && r == skills[..|r|]
    ensures |r| == 2 || r == skills
  {
    if |skills| <= 2 then skills else skills[..2]
  }

  function Badge(p: Project): (badge: string)
    ensures badge == "Featured" <==> p.featured
    ensures badge in {"Featured", "Dev"}
  {
    if p.featured then "Featured" else "Dev"
  }

  class Card {
    const imageCount: nat
    var index: int
    var hovered: bool

    ghost predicate Valid()
      reads this
    {
      (imageCount == 0 ==> index == 0) && (imageCount > 0 ==> 0 <= index < imageCount)
    }

    constructor (imageCount: nat)
      ensures Valid() && this.imageCount == imageCount && index == 0 && !hovered
    {
      this.imageCount := imageCount;
      index := 0;
      hovered := false;
    }

    /** Whether the auto-advance interval is running. */
    predicate Advancing()
      reads this
    {
      imageCount > 1 && !hovered
    }

    /** Mouse enter and mouse leave. */
    method SetHovered(h: bool)
      requires Valid()
      modifies this
      ensures Valid() && hovered == h && index == old(index)
    {
      hovered := h;
    }

    /** One tick of the interval: the next image while advancing, otherwise nothing. */
    method Tick()
      requires Valid()
      modifies this
      ensures Valid() && hovered == old(hovered)
      ensures old(Advancing()) ==> index == ProjectModal.NextIndex(old(index), imageCount)
      ensures !old(Advancing()) ==> index == old(index)
    {
      if Advancing() {
        index := (index + 1) % imageCount;
      }
    }
  }
}
