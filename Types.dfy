/** The record shapes of src/types/repository.ts that the core reads and writes. */
module Types {

  /** A repository as the in-memory store keeps it. */
  datatype Repository = Repository(
    id: string,
    name: string,
    url: string,
    createdAt: string,
    starCount: int,
    forkCount: int,
    description: string)

  /** One day of commit activity; `level` is the 0..4 intensity bucket. */
  datatype ActivityLevel = ActivityLevel(date: string, count: int, level: int)

  /**
   * The churn category; `Other` stands for a tag the backend sends outside
   * the four names, and CategoryOf is how a tag string becomes a category.
   */
  datatype Category = Hotspot | Frequent | Massive | Stable | Other(tag: string)

  /** The category the backend's `category` string names. */
  function CategoryOf(tag: string): (c: Category)
    ensures c == Hotspot <==> tag == "hotspot"
    ensures c == Frequent <==> tag == "frequent"
    ensures c == Massive <==> tag == "massive"
    ensures c == Stable <==> tag == "stable"
    ensures c.Other? ==> c.tag == tag
  {
    if tag == "hotspot" then Hotspot
    else if tag == "frequent" then Frequent
    else if tag == "massive" then Massive
    else if tag == "stable" then Stable
    else Other(tag)
  }

  /** One file of the churn report. */
  datatype ChurnFile = ChurnFile(
    filePath: string,
    additions: int,
    deletions: int,
    churnScore: int,
    commitCount: int,
    linesChanged: int,
    lastModified: string,
    category: Category)
}
