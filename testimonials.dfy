/**
 * `components/sections/TestimonialsSection.tsx`: three fixed testimonials and
 * the one state cell `currentIndex`, stepped by the arrows, the dots and a
 * six-second interval (the timing itself is not modelled).
 */
module Testimonials {
  import opened Carousel

  datatype Testimonial = Testimonial(name: string, role: string, company: string, result: string)

  /** The `testimonials` table (quotes left out). */
  const Table: seq<Testimonial> := [
    Testimonial("Marie Dubois", "Directrice Patrimoine", "Groupe Financier", "+7.2% rendement"),
    Testimonial("Thomas Martin", "Directeur Général", "Martin & Associés", "12 acquisitions"),
    Testimonial("Sophie Laurent", "Responsable Investissements", "Banque Régionale", "×2 économies fiscales")
  ]

  class Section {
    var currentIndex: int

    /** `currentTestimonial = testimonials[currentIndex]` is always defined. */
    predicate Valid()
      reads this
    {
      0 <= currentIndex < |Table|
    }

    constructor()
      ensures Valid() && currentIndex == 0
    {
      currentIndex := 0;
    }

    function CurrentTestimonial(): (t: Testimonial)
      requires Valid()
      reads this
      ensures t in Table
    {
      Table[currentIndex]
    }

    /** `goToNext`, and the interval's tick. */
    method GoToNext()
      requires Valid()
      modifies this
      ensures Valid() && currentIndex == NextIndex(old(currentIndex), |Table|)
    {
      currentIndex := (currentIndex + 1) % |Table|;
    }

    method GoToPrevious()
      requires Valid()
      modifies this
      ensures Valid() && currentIndex == PrevIndex(old(currentIndex), |Table|)
    {
      currentIndex := (currentIndex - 1 + |Table|) % |Table|;
    }

    /** A dot click: `setCurrentIndex(index)` for a dot's own index. */
    method GoTo(index: int)
      requires 0 <= index < |Table|
      modifies this
      ensures Valid() && currentIndex == index
    {
      currentIndex := index;
    }
  }

  /** Back after forward, forward after back, and three ticks all leave the index where it was. */
  method RoundTrips(s: Section)
    requires s.Valid()
    modifies s
    ensures s.Valid() && s.currentIndex == old(s.currentIndex)
  {
    ghost var start := s.currentIndex;
    s.GoToNext();
    s.GoToPrevious();
    PrevUndoesNext(start, |Table|);
    s.GoToPrevious();
    s.GoToNext();
    s.GoToNext();
    s.GoToNext();
    s.GoToNext();
    FullCycle(start, |Table|);
    assert s.currentIndex == Advance(start, |Table|, 3);
  }
}
