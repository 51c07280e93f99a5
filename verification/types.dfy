/** The values the walker, the hasher and the aggregator exchange. */
module Types {

  datatype Option<T> = None | Some(value: T)

  /** What the file mode says an entry is; a directory is never a regular file. */
  datatype Kind = Directory | RegularFile | Irregular

  /** The parts of an os.FileInfo the core reads: base name, size in bytes and kind. */
  datatype FileInfo = FileInfo(name: string, size: int, kind: Kind)

  /** A stored result: the path and the metadata snapshot taken when it was collected. */
  datatype File = File(path: string, stats: FileInfo)

  /** The message a file task sends to the aggregator: a fingerprint and the path it belongs to. */
  datatype Pair = Pair(hash: string, path: string)
}
