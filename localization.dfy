/**
 * Interface strings: a table from message key to one string per language,
 * a process-wide current language that the application sets, and the lookup
 * that falls back to the key itself.
 */
module Localization {
  import opened Types

  /** The application's string table, one entry per key. */
  const Table: map<string, map<Language, string>> :=
    map[
      "drop_files_here" := map[En := "Drop files here or click to upload", Ar := "أسقط الملفات هنا أو انقر للتحميل", Ur := "یہاں فائلیں ڈراپ کریں یا اپ لوڈ کرنے کے لیے کلک کریں"],
      "supported_formats" := map[En := "Supported formats: PDF, DOCX, XLSX, CSV, JSON, MD, PNG, JPG", Ar := "الصيغ المدعومة: PDF, DOCX, XLSX, CSV, JSON, MD, PNG, JPG", Ur := "تعاون یافتہ فارمیٹس: PDF, DOCX, XLSX, CSV, JSON, MD, PNG, JPG"],
      "processing_file" := map[En := "Processing file...", Ar := "جاري معالجة الملف...", Ur := "فائل پر کارروائی ہو رہی ہے..."],
      "file_processed" := map[En := "File processed. Ask a question below.", Ar := "تمت معالجة الملف. اطرح سؤالاً أدناه.", Ur := "فائل پر کارروائی ہو گئی۔ نیچے ایک سوال پوچھیں۔"],
      "type_message" := map[En := "Type your message or ask for a report...", Ar := "اكتب رسالتك أو اطلب تقريرًا...", Ur := "اپنا پیغام ٹائپ کریں یا رپورٹ طلب کریں..."],
      "send" := map[En := "Send", Ar := "إرسال", Ur := "بھیجیں"],
      "listening" := map[En := "Listening...", Ar := "يستمع...", Ur := "سن رہا ہے..."],
      "ask_about_file" := map[En := "Ask a Question about the file", Ar := "اطرح سؤالاً عن الملف", Ur := "فائل کے بارے میں ایک سوال پوچھیں"],
      "generate_on_canvas" := map[En := "Generate on Canvas", Ar := "إنشاء على اللوحة", Ur := "کینوس پر بنائیں"],
      "canvas_panel" := map[En := "Canvas Panel", Ar := "لوحة العرض", Ur := "کینوس پینل"],
      "export_options" := map[En := "Export Options", Ar := "خيارات التصدير", Ur := "برآمد کے اختیارات"],
      "export_pdf" := map[En := "Export PDF", Ar := "تصدير PDF", Ur := "پی ڈی ایف برآمد کریں"],
      "export_docx" := map[En := "Export DOCX", Ar := "تصدير DOCX", Ur := "ڈاکس برآمد کریں"],
      "export_xlsx" := map[En := "Export XLSX", Ar := "تصدير XLSX", Ur := "ایکسل برآمد کریں"],
      "export_png" := map[En := "Export PNG", Ar := "تصدير PNG", Ur := "پی این جی برآمد کریں"]
    ]

  /** `table[key]?.[lang] || key`: the entry for the language when the key
      and the language are present and the entry is not empty, the key
      otherwise (an empty entry is falsy, so it falls back too). */
  function Lookup(table: map<string, map<Language, string>>, lang: Language, key: string): (r: string)
    ensures key !in table ==> r == key
    ensures key in table && lang in table[key] && table[key][lang] != "" ==> r == table[key][lang]
    ensures key in table && lang in table[key] && table[key][lang] == "" ==> r == key
    ensures key in table && lang !in table[key] ==> r == key
    ensures r != ""  || key == ""
  {
    if key in table && lang in table[key] && table[key][lang] != "" then table[key][lang] else key
  }

  /** Every key of the table has a non-empty string for every language, so a
      lookup of one of its keys never falls back. */
  lemma TableComplete(key: string, lang: Language)
    requires key in Table
    ensures lang in Table[key] && Table[key][lang] != ""
    ensures Lookup(Table, lang, key) == Table[key][lang]
  {
  }

  /** Keys the transcription overlay asks for that the table lacks. */
  const OverlayKeys := {"translating", "translation_language", "original_language"}

  /** None of the overlay's keys is in the table, so each shows as the key
      itself, in every language. */
  lemma MissingKeysShowKey(lang: Language, key: string)
    requires key in OverlayKeys
    ensures key !in Table
    ensures Lookup(Table, lang, key) == key
  {
  }

  /** The current language shared by every caller of the lookup. */
  class LanguageState {
    var currentLanguage: Language

    /** The current language starts as English. */
    constructor ()
      ensures currentLanguage == En
    {
      currentLanguage := En;
    }

    method SetCurrentLanguage(lang: Language)
      modifies this
      ensures currentLanguage == lang
    {
      currentLanguage := lang;
    }

    /** `t(key)`: the lookup in the current language. */
    function T(key: string): (r: string)
      reads this
      ensures key !in Table ==> r == key
      ensures key in Table ==> currentLanguage in Table[key] && r == Table[key][currentLanguage]
    {
      if key in Table then
        TableComplete(key, currentLanguage);
        Lookup(Table, currentLanguage, key)
      else
        Lookup(Table, currentLanguage, key)
    }
  }
}
