/** The record the store layer ingests (`ImageData` in src/common/db.py). */
module Db {
  /** One image: its file name and path, its caption and its embedding vector. */
  datatype ImageData = ImageData(fileName: string, filePath: string, caption: string, embedding: seq<real>)
}
