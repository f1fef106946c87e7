/**
 * A metadata document as the script sees it after `xmltodict.parse`:
 * an element with only text is a string, an empty element is None, an
 * element with children or attributes is a dict, and a repeated element
 * (or one listed in `force_list`) is a list.
 */
module XmlTree {

  datatype XNode =
    | Text(s: string)
    | Null
    | Dict(entries: map<string, XNode>)
    | List(items: seq<XNode>)

  /** Python truthiness of the value (`if data[...]:`). */
  predicate Truthy(v: XNode) {
    match v
    case Text(s) => s != ""
    case Null => false
    case Dict(m) => |m| > 0
    case List(xs) => |xs| > 0
  }

  /** `d.get(key, default)` on a dict. */
  function Get(m: map<string, XNode>, key: string, default: XNode): XNode {
    if key in m then m[key] else default
  }

  /** `node[key]` succeeds and yields a dict: the node is a dict holding a dict under `key`. */
  predicate HasDictAt(node: XNode, key: string) {
    node.Dict? && key in node.entries && node.entries[key].Dict?
  }
}
