/** The records shared by the note components. */
module Types {
  import opened Wrappers

  /** One row of the `notes` table. `summary` is absent until one has been
      generated and stored; the timestamps are opaque strings. */
  datatype Note = Note(
    id: string,
    userId: string,
    title: string,
    content: string,
    summary: Option<string>,
    createdAt: string,
    updatedAt: string)

  datatype ToastKind = SuccessToast | ErrorToast

  /** A notification shown to the user. */
  datatype Toast = Toast(kind: ToastKind, message: string)
}
