/** Frontend/src/components/ResourceLocator.js: the curated resource list,
    its filter by type tab and search text, and the link each card opens. */
module Resources {
  import opened Common
  import opened Text
  import opened Lists

  /** A resource card. `lat` and `lng` are the coordinates as the template
      literal prints them, `None` for `null`. */
  datatype Resource = Resource(id: nat, kind: string, name: string, address: string,
                               lat: Option<string>, lng: Option<string>,
                               desc: string, website: string)

  /** The tab that shows every type. */
  const AllTypes: string := "All"

  const MapsPrefix: string := "https://maps.google.com/?q="

  /** The curated resources the locator lists, in the order it declares them. */
  const Dummy: seq<Resource> := [
    Resource(1, "Clinic", "Downtown Therapist Clinic", "123 Main St, Midtown",
             Some("40.7128"), Some("-74.006"),
             "Licensed therapists offering CBT and mindfulness-based therapy.",
             "https://example.com/clinic"),
    Resource(2, "Support", "City Wellness Group", "456 Elm St, Riverpark",
             Some("40.7138"), Some("-74.002"),
             "Weekly peer-led support circle for stress and burnout.",
             "https://example.com/support"),
    Resource(3, "Event", "Weekly Meditation Meetup", "789 Oak Ave, Oldtown",
             Some("40.71"), Some("-74.01"),
             "Free guided meditation and breathwork, every Saturday 9 AM.",
             "https://example.com/meditation"),
    Resource(4, "Article", "How to Journal for Mental Clarity", "Online resource",
             None, None,
             "A practical guide to reflective journaling and prompts.",
             "https://example.com/article"),
    Resource(5, "Video", "10-Minute Box Breathing", "Online video",
             None, None,
             "Follow-along breathing routine to calm the nervous system.",
             "https://example.com/video"),
    Resource(6, "Tool", "Mood & Habit Tracker", "Web app",
             None, None,
             "Track mood, habits, and triggers with daily check-ins.",
             "https://example.com/tool"),
    Resource(7, "Contact", "24/7 Mental Health Helpline", "Toll-free: 1-800-000-000",
             None, None,
             "Immediate support and crisis counseling, available anytime.",
             "tel:1800000000"),
    Resource(8, "Clinic", "Harborview Wellness Center", "22 Bay Rd, Harbor",
             Some("40.718"), Some("-74.015"),
             "Integrated care: therapy, nutrition, and stress clinics.",
             "https://example.com/harborview"),
    Resource(9, "Event", "Mindful Walking in the Park", "Central Park East Gate",
             Some("40.785091"), Some("-73.968285"),
             "45-minute mindful walk with grounding techniques (Sun 7 AM).",
             "https://example.com/walk")
  ]

  /** The search text as the filter uses it: trimmed, then lower-cased. */
  function Needle(query: string): (q: string)
    ensures q == [] <==> IsBlank(query)
    ensures |q| == |Trim(query)|
  {
    Lower(Trim(query))
  }

  /** The filter's test for one resource: the type matches the tab (any type
      under "All"), and the needle is empty or occurs in the lower-cased name,
      address or description. */
  predicate Matches(activeType: string, q: string, r: Resource) {
    (activeType == AllTypes || r.kind == activeType)
    && (q == [] || Contains(Lower(r.name), q) || Contains(Lower(r.address), q)
        || Contains(Lower(r.desc), q))
  }

  /** `filtered` over any list of resources. */
  function FilterResources(items: seq<Resource>, activeType: string, query: string): (r: seq<Resource>)
    ensures forall x :: x in r <==> x in items && Matches(activeType, Needle(query), x)
    ensures IsSubsequence(r, items)
    ensures activeType != AllTypes ==> forall x | x in r :: x.kind == activeType
    ensures !IsBlank(query) ==> forall x | x in r ::
      Contains(Lower(x.name), Needle(query)) || Contains(Lower(x.address), Needle(query))
      || Contains(Lower(x.desc), Needle(query))
  {
    var q := Needle(query);
    var keep := (x: Resource) => Matches(activeType, q, x);
    FilterIsSubsequence(items, keep);
    Filter(items, keep)
  }

  /** The list the page shows. */
  function Filtered(activeType: string, query: string): (r: seq<Resource>)
    ensures IsSubsequence(r, Dummy)
  {
    FilterResources(Dummy, activeType, query)
  }

  /** The "All" tab with a blank search shows every resource, in order. */
  lemma AllWithBlankQueryShowsEverything(items: seq<Resource>, query: string)
    requires IsBlank(query)
    ensures FilterResources(items, AllTypes, query) == items
  {
    FilterKeepsAll(items, (x: Resource) => Matches(AllTypes, Needle(query), x));
  }

  /** In particular the page starts with all nine resources. */
  lemma InitialPageShowsAll()
    ensures Filtered(AllTypes, "") == Dummy && |Filtered(AllTypes, "")| == 9
  {
    AllWithBlankQueryShowsEverything(Dummy, "");
  }

  /** Search ignores letter case in the resource's fields: a resource matches
      exactly when its lower-cased variant does. */
  lemma MatchIgnoresFieldCase(activeType: string, q: string, r: Resource)
    ensures Matches(activeType, q, r)
        <==> Matches(activeType, q, r.(name := Lower(r.name), address := Lower(r.address), desc := Lower(r.desc)))
  {
    LowerIdempotent(r.name);
    LowerIdempotent(r.address);
    LowerIdempotent(r.desc);
  }

  /** Narrowing to one type from "All" only removes resources. */
  lemma TypeTabNarrows(items: seq<Resource>, kind: string, query: string)
    ensures forall x | x in FilterResources(items, kind, query) :: x in FilterResources(items, AllTypes, query)
  {
  }

  /** The card's maps button target: the maps URL when both coordinates are
      present, the website otherwise. */
  function MapsLink(r: Resource): (url: string)
    ensures r.lat.Some? && r.lng.Some? ==> url == MapsPrefix + r.lat.value + "," + r.lng.value
    ensures r.lat.None? || r.lng.None? ==> url == r.website
  {
    if r.lat.Some? && r.lng.Some? then MapsPrefix + r.lat.value + "," + r.lng.value
    else r.website
  }

  /** The button caption checks `lat` alone. */
  function MapsCaption(r: Resource): (caption: string)
    ensures caption == "OPEN IN MAPS" <==> r.lat.Some?
  {
    if r.lat.Some? then "OPEN IN MAPS" else "OPEN LINK"
  }

  /** Every resource of the list has both coordinates or neither, so a card
      captioned "OPEN IN MAPS" always opens the maps URL and any other card
      opens its website. */
  lemma CaptionAgreesWithLink(r: Resource)
    requires r in Dummy
    ensures MapsCaption(r) == "OPEN IN MAPS" <==> MapsLink(r) != r.website
  {
  }
}
