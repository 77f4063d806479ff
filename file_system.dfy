/** The files the bot reads and writes, as a map from path to contents. */
module FileSystem {

  class Disk {
    var files: map<string, string>

    constructor(files: map<string, string>)
      ensures this.files == files
    {
      this.files := files;
    }
  }
}
