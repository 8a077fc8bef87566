/** What a directory knows about each of its children, and how that is written to and read from a
    stored listing. */
module MetaData {
  import opened Wrappers
  import opened Paths

  type DirectoryId = string
  type ChunkName = string
  newtype Byte = b: int | 0 <= b < 256
  type Bytes = seq<Byte>

  /** The recipe for a file's content: the names of its chunks, or the content itself. */
  datatype DataMap = DataMap(chunks: seq<ChunkName>, content: Bytes)

  datatype FileType = DirectoryFile | RegularFile

  datatype Meta = Meta(name: Name, fileType: FileType, directoryId: Option<DirectoryId>, dataMap: Option<DataMap>,
                       size: nat)

  const DIRECTORY_SIZE: nat := 4096

  /** What the constructors set up and no operation changes. */
  predicate WellFormed(m: Meta) {
    match m.fileType
    case DirectoryFile => m.directoryId.Some? && m.dataMap.None? && m.size == DIRECTORY_SIZE
    case RegularFile => m.directoryId.None? && m.dataMap.Some?
  }

  /** The names a listing can have and keep: there is a name, and it is not read back as another. */
  predicate Nameable(name: Name) {
    name != "" && name != "\\"
  }

  predicate IsDirectory(m: Meta) {
    m.fileType == DirectoryFile
  }

  // ----- protobuf messages -----

  datatype ProtoAttributes = ProtoAttributes(fileType: FileType, stSize: nat)
  datatype ProtoPath = ProtoPath(name: string, attributes: ProtoAttributes, serialisedDataMap: Option<DataMap>,
                                 directoryId: Option<DirectoryId>)

  /** MetaData::ToProtobuf, with what File::Serialise adds for each type. */
  function ToProto(m: Meta): ProtoPath {
    var attributes := ProtoAttributes(m.fileType, m.size);
    match m.fileType
    case DirectoryFile => ProtoPath(m.name, attributes, None, m.directoryId)
    case RegularFile => ProtoPath(m.name, attributes, m.dataMap, None)
  }

  /** MetaData(protobuf::Path); None is parsing_error. */
  function FromProto(entry: ProtoPath): Option<Meta> {
    var name := if entry.name == "\\" || entry.name == "/" then ROOT else entry.name;
    match entry.attributes.fileType
    case DirectoryFile =>
      if entry.directoryId.None? || entry.serialisedDataMap.Some? then None
      else Some(Meta(name, DirectoryFile, entry.directoryId, None, DIRECTORY_SIZE))
    case RegularFile =>
      if entry.directoryId.Some? || entry.serialisedDataMap.None? then None
      else Some(Meta(name, RegularFile, None, entry.serialisedDataMap, entry.attributes.stSize))
  }

  /** Writing a child and reading it back gives the same child exactly when it is not named "\". */
  lemma RoundTrip(m: Meta)
    requires WellFormed(m)
    ensures FromProto(ToProto(m)).Some?
    ensures FromProto(ToProto(m)) == Some(m) <==> m.name != "\\"
  {
    assert "\\"[0] == '\\' && ROOT[0] == '/';
  }

  /** Exactly the messages of the two kinds of child parse. */
  lemma ParsesIffUnion(entry: ProtoPath)
    ensures FromProto(entry).Some? <==>
      (entry.attributes.fileType == DirectoryFile <==> entry.directoryId.Some?)
      && (entry.attributes.fileType == DirectoryFile <==> entry.serialisedDataMap.None?)
    ensures FromProto(entry).Some? ==> WellFormed(FromProto(entry).value)
    ensures FromProto(entry).Some? ==>
      var m := FromProto(entry).value;
      && m.name == (if entry.name == "\\" then "/" else entry.name)
      && m.fileType == entry.attributes.fileType
      && m.directoryId == entry.directoryId && m.dataMap == entry.serialisedDataMap
      && m.size == if entry.attributes.fileType == DirectoryFile then 4096 else entry.attributes.stSize
  {
  }
}
