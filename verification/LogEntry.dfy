// A formatted log entry, and the memory cell that may point to it (chunk.go).
module LogEntry {

  // `epoch` is Time.Unix(); the level plays no part in ingestion.
  datatype Entry = Entry(epoch: int, level: int, content: string)

  // One element of a chunk's `entries` array.
  datatype Cell = Nil | Ptr(e: Entry)
}
