/** Token numbers of cimXmlParser.h. */
module TokenCodes {
  const XTOK_XML := 258
  const ZTOK_XML := 259
  const XTOK_CIM := 260
  const ZTOK_CIM := 261
  const XTOK_MESSAGE := 262
  const ZTOK_MESSAGE := 263
  const XTOK_SIMPLERSP := 264
  const ZTOK_SIMPLERSP := 265
  const XTOK_SIMPLEEXPREQ := 266
  const ZTOK_SIMPLEEXPREQ := 267
  const XTOK_EXPORTINDICATION := 268
  const ZTOK_EXPMETHODCALL := 269
  const XTOK_EP_INSTANCE := 270
  const ZTOK_EXPPARAMVALUE := 271
  const XTOK_IMETHODRESP := 272
  const ZTOK_IMETHODRESP := 273
  const XTOK_METHODRESP := 274
  const ZTOK_METHODRESP := 275
  const XTOK_ERROR := 276
  const ZTOK_ERROR := 277
  const XTOK_IRETVALUE := 278
  const ZTOK_IRETVALUE := 279
  const XTOK_RETVALUE := 280
  const ZTOK_RETVALUE := 281
  const XTOK_NAMESPACEPATH := 282
  const ZTOK_NAMESPACEPATH := 283
  const XTOK_LOCALNAMESPACEPATH := 284
  const ZTOK_LOCALNAMESPACEPATH := 285
  const XTOK_NAMESPACE := 286
  const ZTOK_NAMESPACE := 287
  const ZTOK_IPARAMVALUE := 288
  const XTOK_RETURNVALUE := 289
  const ZTOK_RETURNVALUE := 290
  const XTOK_HOST := 291
  const ZTOK_HOST := 292
  const XTOK_VALUE := 293
  const ZTOK_VALUE := 294
  const XTOK_VALUEARRAY := 295
  const ZTOK_VALUEARRAY := 296
  const XTOK_VALUEREFERENCE := 297
  const ZTOK_VALUEREFERENCE := 298
  const XTOK_CLASSNAME := 299
  const ZTOK_CLASSNAME := 300
  const XTOK_INSTANCENAME := 301
  const ZTOK_INSTANCENAME := 302
  const XTOK_KEYBINDING := 303
  const ZTOK_KEYBINDING := 304
  const XTOK_KEYVALUE := 305
  const ZTOK_KEYVALUE := 306
  const XTOK_VALUENAMEDINSTANCE := 307
  const ZTOK_VALUENAMEDINSTANCE := 308
  const XTOK_QUALIFIER := 309
  const ZTOK_QUALIFIER := 310
  const XTOK_PROPERTY := 311
  const ZTOK_PROPERTY := 312
  const XTOK_PROPERTYARRAY := 313
  const ZTOK_PROPERTYARRAY := 314
  const XTOK_PROPERTYREFERENCE := 315
  const ZTOK_PROPERTYREFERENCE := 316
  const XTOK_PARAM := 317
  const ZTOK_PARAM := 318
  const XTOK_PARAMARRAY := 319
  const ZTOK_PARAMARRAY := 320
  const XTOK_PARAMREF := 321
  const ZTOK_PARAMREF := 322
  const XTOK_PARAMREFARRAY := 323
  const ZTOK_PARAMREFARRAY := 324
  const XTOK_METHOD := 325
  const ZTOK_METHOD := 326
  const XTOK_CLASS := 327
  const ZTOK_CLASS := 328
  const XTOK_INSTANCE := 329
  const ZTOK_INSTANCE := 330
  const XTOK_VALUEOBJECTWITHPATH := 331
  const ZTOK_VALUEOBJECTWITHPATH := 332
  const XTOK_PARAMVALUE := 333
  const ZTOK_PARAMVALUE := 334
  const XTOK_INSTANCEPATH := 335
  const ZTOK_INSTANCEPATH := 336
  const XTOK_OBJECTPATH := 337
  const ZTOK_OBJECTPATH := 338
  const XTOK_LOCALINSTANCEPATH := 339
  const ZTOK_LOCALINSTANCEPATH := 340
  const XTOK_LOCALCLASSPATH := 341
  const ZTOK_LOCALCLASSPATH := 342
  const XTOK_CLASSPATH := 343
  const ZTOK_CLASSPATH := 344
  const XTOK_VALUEREFARRAY := 345
  const ZTOK_VALUEREFARRAY := 346
  const XTOK_CDATA := 347
  const ZTOK_CDATA := 348
}
