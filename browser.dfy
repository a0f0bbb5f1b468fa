/** The browser objects the components handle, reduced to what the logic reads. */
module Browser {

  /** A `File` chosen by the user: only its name, byte size and MIME type are read. */
  datatype File = File(name: string, size: nat, mimeType: string)

  /** A `blob:` URL made by `URL.createObjectURL`, as an opaque token. The
      `id` is the number of URLs created before it, so every new one is fresh. */
  datatype ObjectUrl = ObjectUrl(id: nat)
}
