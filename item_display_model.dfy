/** The content records edited by the admin pages and shown in the overlay. */
module ItemDisplayModel {
  import opened Wrappers

  /** One titled page of an item's detail view. */
  datatype InfoPage = InfoPage(title: string, content: string)

  /** A homepage entry (project, blog post, link, ...). `None` is an absent optional field. */
  datatype ItemDisplay = ItemDisplay(
    id: Option<string>,
    title: string,
    thumbnailImage: Option<string>,
    description: Option<string>,
    link: Option<string>,
    infoPages: seq<InfoPage>,
    hidden: bool,
    spoiler: bool,
    nsfw: bool,
    tags: seq<string>,
    displayItemType: string)

  const BlankPage: InfoPage := InfoPage("", "")

  const DisplayItemTypes: seq<string> := ["project", "blog", "url", "random"]
}
