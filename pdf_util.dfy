/**
 * The temporary-file area of the classifier service. The files that exist
 * in it are a set of names that the service adds to and removes from; the
 * external tools that render a page and extract text are oracles whose
 * outcome is a parameter.
 */
module PdfUtil {

  /** A rendered first page of at most this many bytes is taken to be blank. */
  const ImageMinBytes: nat := 3000

  /** `extract_pdf_image` writes the page image next to the PDF under this name. */
  function JpgName(tmpPdf: string): (jpg: string)
    ensures |jpg| == |tmpPdf| + 4 && jpg[..|tmpPdf|] == tmpPdf
    ensures jpg != tmpPdf && jpg != ""
  {
    tmpPdf + ".jpg"
  }

  /**
   * What `extract_pdf_image` returns when the rendered file has
   * `renderedSize` bytes (0 when no file was produced): the image name
   * when it is larger than the blank-page limit, "" otherwise.
   */
  function ImageResult(tmpPdf: string, renderedSize: nat): (jpg: string)
    ensures jpg == "" || jpg == JpgName(tmpPdf)
    ensures jpg != "" <==> renderedSize > ImageMinBytes
  {
    if renderedSize > ImageMinBytes then JpgName(tmpPdf) else ""
  }

  /** The files present in the temporary area. */
  class TempArea {
    var files: set<string>

    constructor ()
      ensures files == {}
    {
      files := {};
    }

    /** `pdf_filestorage.save(tmp_pdf_name)` and `write_tmp_file`: the PDF now exists. */
    method Save(name: string)
      modifies this
      ensures files == old(files) + {name}
    {
      files := files + {name};
    }

    /** `remove_tmp_file`: removes the file if it exists, and does nothing otherwise. */
    method Remove(name: string)
      modifies this
      ensures files == old(files) - {name}
    {
      if name in files {
        files := files - {name};
      }
    }

    /**
     * `extract_pdf_image`: a rendered page larger than the limit is kept and
     * its name returned; a smaller one is removed again and "" returned, as
     * when nothing was rendered.
     */
    method ExtractPdfImage(tmpPdf: string, renderedSize: nat) returns (jpg: string)
      modifies this
      ensures jpg == ImageResult(tmpPdf, renderedSize)
      ensures jpg != "" ==> files == old(files) + {jpg}
      ensures jpg == "" ==> files == old(files) - {JpgName(tmpPdf)}
    {
      var name := JpgName(tmpPdf);
      if renderedSize > 0 {
        files := files + {name};
      } else {
        files := files - {name};
      }
      if renderedSize > ImageMinBytes {
        jpg := name;
      } else {
        Remove(name);
        jpg := "";
      }
    }
  }
}
