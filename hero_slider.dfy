/**
 * The home page carousel (client/src/components/home/HeroSlider.jsx): the
 * slides (the pets, or seven stock photos when there are none), the index
 * arithmetic of the arrows, the timer and the dots, and the image shown.
 */
module HeroSlider {
  import opened Wrappers
  import opened Models
  import opened Text

  const FallbackImages: seq<string> := [
    "https://images.unsplash.com/photo-1543466835-00a7907e9de1?q=80&w=800&auto=format&fit=crop",
    "https://images.unsplash.com/photo-1514888286974-6c03e2ca1dba?q=80&w=800&auto=format&fit=crop",
    "https://images.unsplash.com/photo-1585110396065-88b770d45474?q=80&w=800&auto=format&fit=crop",
    "https://images.unsplash.com/photo-1517849845537-4d257902454a?q=80&w=800&auto=format&fit=crop",
    "https://images.unsplash.com/photo-1533738363-b7f9aef128ce?q=80&w=800&auto=format&fit=crop",
    "https://images.unsplash.com/photo-1589924691195-41432c84c161?q=80&w=800&auto=format&fit=crop",
    "https://images.unsplash.com/photo-1425082661705-1834bfd09dca?q=80&w=800&auto=format&fit=crop"
  ]

  /** Most dots shown under the carousel. */
  const MaxDots: nat := 5

  /** One slide: a pet, or a stock photo marked `fallback`. */
  datatype Slide = Slide(id: string, name: string, images: seq<string>, fallback: bool)

  /**
   * The slides: one per pet, in order, showing that pet's images; or, when
   * there are no pets, the seven stock photos, one each. Never empty.
   */
  function Items(pets: seq<Pet>): (r: seq<Slide>)
    ensures |r| > 0
    ensures |pets| > 0 ==> |r| == |pets| && forall i :: 0 <= i < |r| ==>
      !r[i].fallback && r[i].id == pets[i].id && r[i].images == pets[i].images
    ensures |pets| == 0 ==> |r| == |FallbackImages| && forall i :: 0 <= i < |r| ==>
      r[i].fallback && r[i].images == [FallbackImages[i]]
  {
    if |pets| > 0 then seq(|pets|, i requires 0 <= i < |pets| => Slide(pets[i].id, pets[i].name, pets[i].images, false))
    else seq(|FallbackImages|, i requires 0 <= i < |FallbackImages| =>
           Slide("fallback-" + NatText(i), "Adopt Me", [FallbackImages[i]], true))
  }

  /** handleNext and the timer: one slide on, wrapping to the first. */
  function Next(i: nat, n: nat): (r: nat)
    requires n > 0
    ensures r < n
    ensures i + 1 < n ==> r == i + 1
    ensures i + 1 == n ==> r == 0
  {
    (i + 1) % n
  }

  /** handlePrev: one slide back, wrapping to the last. */
  function Prev(i: nat, n: nat): (r: nat)
    requires n > 0 && i < n
    ensures r < n
    ensures i > 0 ==> r == i - 1
    ensures i == 0 ==> r == n - 1
  {
    (i - 1 + n) % n
  }

  /** Back after forward, and forward after back, return to the same slide. */
  lemma NextPrevInverse(i: nat, n: nat)
    requires n > 0 && i < n
    ensures Prev(Next(i, n), n) == i
    ensures Next(Prev(i, n), n) == i
  {
  }

  /** The number of dots: the first five slides at most. */
  function DotCount(n: nat): (r: nat)
    ensures r <= MaxDots && r <= n
    ensures r == MaxDots || r == n
  {
    if n < MaxDots then n else MaxDots
  }

  /** The highlighted dot is `i % 5`, and it is always one of the dots shown. */
  function ActiveDot(i: nat, n: nat): (r: nat)
    requires i < n
    ensures r < DotCount(n)
    ensures r == i % MaxDots
  {
    i % MaxDots
  }

  /**
   * The image of a slide, as the code reads it: a stock photo's own image;
   * a pet's first image, or the first stock photo for a pet without images.
   * None stands for the TypeError of reading a slide past the end, and ""
   * for the `undefined` of a stock slide without images.
   */
  function ImageSrc(items: seq<Slide>, i: nat): (r: Option<string>)
    ensures r.Some? <==> i < |items|
    ensures i < |items| && !items[i].fallback && items[i].images == [] ==> r == Some(FallbackImages[0])
    ensures i < |items| && items[i].images != [] ==> r == Some(items[i].images[0])
  {
    if i >= |items| then None
    else
      var item := items[i];
      if item.fallback then Some(if item.images != [] then item.images[0] else "")
      else if item.images != [] then Some(item.images[0])
      else Some(FallbackImages[0])
  }

  /** Every slide built by Items has an image to show. */
  lemma ItemsAlwaysHaveImage(pets: seq<Pet>, i: nat)
    requires i < |Items(pets)|
    ensures ImageSrc(Items(pets), i).Some?
  {
  }

  /**
   * The index survives a change of the pets: a carousel moved to slide 4 of
   * the stock photos has no slide to show once two pets arrive.
   */
  lemma StaleIndexAfterPetsArrive(p1: Pet, p2: Pet)
    ensures ImageSrc(Items([]), 4).Some?
    ensures ImageSrc(Items([p1, p2]), 4).None?
  {
  }

  class Slider {
    var items: seq<Slide>
    var index: nat

    ghost predicate Valid()
      reads this
    {
      |items| > 0 && index < |items|
    }

    /** The first slide of the slides for `pets`. */
    constructor (pets: seq<Pet>)
      ensures Valid() && items == Items(pets) && index == 0
    {
      items := Items(pets);
      index := 0;
    }

    /** The image on screen. */
    function CurrentImage(): (r: string)
      requires Valid()
      reads this
      ensures Some(r) == ImageSrc(items, index)
    {
      ImageSrc(items, index).value
    }

    /** handleNext, and each tick of the 3.5-second timer. */
    method Forward()
      requires Valid()
      modifies this
      ensures Valid() && items == old(items) && index == Next(old(index), |items|)
    {
      index := Next(index, |items|);
    }

    /** handlePrev */
    method Back()
      requires Valid()
      modifies this
      ensures Valid() && items == old(items) && index == Prev(old(index), |items|)
    {
      index := Prev(index, |items|);
    }

    /** A click on dot `k` shows slide `k`. */
    method ClickDot(k: nat)
      requires Valid() && k < DotCount(|items|)
      modifies this
      ensures Valid() && items == old(items) && index == k
    {
      index := k;
    }

    /**
     * New pets for the carousel. The index is brought back into range, so a
     * shorter list of slides still has a slide to show.
     */
    method ReceivePets(pets: seq<Pet>)
      requires Valid()
      modifies this
      ensures Valid() && items == Items(pets)
      ensures old(index) < |items| ==> index == old(index)
      ensures index == old(index) % |items|
    {
      items := Items(pets);
      index := index % |items|;
    }
  }
}
