/** Datatypes shared by every module. */
module Common {

  datatype Option<+T> = None | Some(value: T)

  /** The identity of a stored object: group, version and kind of its type, and its identifier. */
  datatype ObjectKey = ObjectKey(group: string, version: string, kind: string, id: string)

  /** What a file holds: an object that can be identified, or bytes that do not parse as one. */
  datatype Content = Object(key: ObjectKey, data: string) | Malformed(raw: string)

  /** The files of a directory tree, by path. */
  type Tree = map<string, Content>

  /** The key of the object stored at `path`, if there is one. */
  function KeyAt(tree: Tree, path: string): Option<ObjectKey> {
    if path in tree && tree[path].Object? then Some(tree[path].key) else None
  }
}
