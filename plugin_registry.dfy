/**
 * The part of the FBX SDK's IO plugin registry (FbxIOPluginRegistry) that the
 * export fallback and the dialog filter builders consult: the reader and
 * writer formats in registry order, each with its description, its file
 * extension and whether it is an FBX format, plus the index of the native
 * writer.
 */
module PluginRegistry {

  /** A C string: text that holds no NUL character. */
  type CString = s: string | '\0' !in s

  /** One reader or writer format registered by a plugin. */
  datatype FormatPlugin = FormatPlugin(description: CString, extension: CString, isFbx: bool)

  /** The registry: reader formats, writer formats, and GetNativeWriterFormat(). */
  datatype Registry = Registry(readers: seq<FormatPlugin>, writers: seq<FormatPlugin>, nativeWriter: int)
}
