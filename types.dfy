/** The records of src/types.ts. */
module Types {
  import opened Wrappers

  /**
   * A YouTube video as the app keeps it. `title` is what is shown (possibly
   * sanitised); `originalTitle` is the title as YouTube returned it.
   */
  datatype Video = Video(
    id: string,
    title: string,
    thumbnail: string,
    channelTitle: string,
    publishedAt: string,
    originalTitle: string,
    duration: Option<string>)
}
