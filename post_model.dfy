/**
 * The Post document of models/post.model.js: three required strings, an optional
 * list of tags, the author reference OP, embedded comments and the two timestamps
 * that `timestamps: true` adds.
 */
module PostModel {

  /** A document identifier (a Mongo ObjectId), allocated by the store. */
  type ObjectId = nat

  /** An embedded comment: its text and a reference to the user who wrote it. */
  datatype Comment = Comment(text: string, commenter: ObjectId)

  datatype Post = Post(
    id: ObjectId,
    title: string,
    description: string,
    imgURL: string,
    tags: seq<string>,
    op: ObjectId,
    comments: seq<Comment>,
    createdAt: nat,
    updatedAt: nat)

  /** The schema's `required: true` on title, description and imgURL (an empty string fails it). */
  predicate RequiredFieldsPresent(p: Post)
  {
    p.title != "" && p.description != "" && p.imgURL != ""
  }
}
