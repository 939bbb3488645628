/** The sample content the store is seeded with when the module loads: five
    news articles with string identifiers "1" to "5", eight tags and three
    testimonials; no newsletters (those come from the archive). Every field
    of the sample records is reproduced except the long prose: the articles'
    `summary` and `content` and the testimonials' `quote` are left out. */
module SeedData {
  import opened JsValues

  function Tags(names: seq<string>): JsValue {
    Arr(seq(|names|, k requires 0 <= k < |names| => Str(names[k])))
  }

  function Article(id: string, title: string, date: string, displayDate: string,
                   category: string, tags: seq<string>, views: int, position: int,
                   section: string, authorName: string, authorRole: string): Record
  {
    map[
      "title" := Str(title), "date" := Str(date),
      "author" := Obj(map["name" := Str(authorName), "role" := Str(authorRole),
                          "avatar" := Str("https://via.placeholder.com/40x40")]),
      "displayDate" := Str(displayDate), "category" := Str(category),
      "tags" := Tags(tags), "image" := Str("https://via.placeholder.com/600x400"),
      "views" := Num(views), "isVisible" := Bool(true), "position" := Num(position),
      "showcaseSection" := Str(section), "id" := Str(id)
    ]
  }

  function SeedNews(): seq<Record> {
    [
      Article("1", "Indonesia's Digital Economy Reaches $77B Milestone", "2025-09-24",
              "September 24, 2025", "Technology", ["Technology", "Business", "Global Economy"],
              8920, 1, "featured", "Maya Sari", "Indonesia Correspondent"),
      Article("2", "Tech Giant Opens New AI Research Hub in Jakarta", "2025-09-23",
              "September 23, 2025", "Technology", ["Technology", "AI & ML", "Innovation"],
              12450, 2, "mosaic", "David Chen", "Technology Analyst"),
      Article("3", "New Policy Framework for Green Energy Investment", "2025-09-22",
              "September 22, 2025", "Policy", ["Policy", "Innovation", "Global Economy"],
              6780, 3, "mosaic", "Sarah Wilson", "Policy Analyst"),
      Article("4", "Startup Funding Surge: Q3 2025 Investment Analysis", "2025-09-21",
              "September 21, 2025", "Business", ["Business", "Innovation", "Markets"],
              9340, 4, "loop", "Jennifer Lee", "Business Reporter"),
      Article("5", "Trade Relations Strengthen Between ASEAN and EU", "2025-09-20",
              "September 20, 2025", "Global Economy", ["Global Economy", "Policy", "Business"],
              5670, 5, "loop", "Michael Torres", "International Affairs Correspondent")
    ]
  }

  /** The seeded articles are numbered "1" to "5" in order. */
  lemma SeedNewsIds()
    ensures |SeedNews()| == 5
    ensures forall k :: 0 <= k < 5 ==> Get(SeedNews()[k], "id") == Str(["1", "2", "3", "4", "5"][k])
  {
  }

  function Tag(name: string, color: string): Record {
    map["name" := Str(name), "color" := Str(color)]
  }

  function SeedTags(): seq<Record> {
    [
      Tag("Technology", "blue"), Tag("AI & ML", "purple"), Tag("Policy", "green"),
      Tag("Business", "orange"), Tag("Markets", "teal"), Tag("Innovation", "indigo"),
      Tag("Corporate", "cyan"), Tag("Global Economy", "emerald")
    ]
  }

  function Testimonial(id: int, author: string, role: string, company: string): Record {
    map[
      "id" := Num(id), "author" := Str(author), "role" := Str(role),
      "company" := Str(company), "avatar" := Str("https://via.placeholder.com/60x60"),
      "isActive" := Bool(true)
    ]
  }

  function SeedTestimonials(): seq<Record> {
    [
      Testimonial(1, "Sarah Chen", "Chief Strategy Officer", "TechVentures Inc."),
      Testimonial(2, "Michael Rodriguez", "Managing Director", "Global Capital Partners"),
      Testimonial(3, "Emily Johnson", "Head of Research", "Innovation Labs")
    ]
  }
}
