/** The records the client receives from the REST API and the signed-in user. */
module Entities {
  import opened Wrappers

  /** A catalog entry. Only the fields the client logic reads are kept; the
      ones a server response may omit are optional (`video.title?.…`). */
  datatype Video = Video(
    id: string,
    title: Option<string>,
    description: Option<string>,
    channelName: Option<string>,
    category: Option<string>,
    tags: Option<seq<string>>)

  /** A comment as held in the thread's local list; `createdAt` is the
      creation time in milliseconds since the epoch. */
  datatype Comment = Comment(
    id: string,
    videoId: string,
    userId: string,
    username: string,
    avatar: string,
    text: string,
    createdAt: int)

  /** The signed-in user of the session store; an absent username or avatar is "". */
  datatype User = User(id: string, username: string, avatar: string)
}
