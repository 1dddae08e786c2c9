/** The part of an Obsidian vault the plugin works with: the text of each
    markdown file, by path. */
module Vaults {
  import opened Seqs

  class Vault {
    var files: map<string, string>

    constructor (files: map<string, string>)
      ensures this.files == files
    {
      this.files := files;
    }

    /** `vault.create(path, text)`: refuses to overwrite an existing file. */
    method Create(path: string, text: string) returns (r: Result<(), string>)
      modifies this
      ensures path in old(files) ==> r.Err? && files == old(files)
      ensures path !in old(files) ==> r.Ok? && files == old(files)[path := text]
    {
      if path in files {
        r := Err("File already exists.");
      } else {
        files := files[path := text];
        r := Ok(());
      }
    }

    /** `vault.modify(file, text)` on a file the caller holds. */
    method Modify(path: string, text: string)
      requires path in files
      modifies this
      ensures files == old(files)[path := text]
    {
      files := files[path := text];
    }
  }
}
